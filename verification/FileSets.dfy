/**
 * The fileset class and the trace loop of python/oneseismic/upload/upload.py:
 * traces are put in any order, and every lane is written out exactly once, when
 * its last trace is in.
 */
module FileSets {
  import opened Arith
  import opened Shapes
  import opened Geometry
  import opened Strides
  import opened Cells
  import opened Partition
  import opened Survey
  import opened Upload
  import CurtainPlan
  import Queries

  /** splitarray: pieces of n values, the last of which may be shorter. */
  method SplitArray(values: seq<Sample>, n: nat) returns (parts: seq<seq<Sample>>)
    requires n > 0
    ensures parts == Chunks(values, n)
  {
    ghost var all := Chunks(values, n);
    if |values| > 0 {
      ChunkAt(values, n, 0);
    }
    parts := [];
    var i := 0;
    ghost var k: nat := 0;
    while i < |values|
      invariant k <= |all| && parts == all[..k]
      invariant k < |all| ==> i == k * n
      invariant i < |values| <==> k < |all|
      decreases |values| - i
    {
      ChunkAt(values, n, k);
      parts := parts + [values[i..Min(i + n, |values|)]];
      i, k := i + n, k + 1;
    }
  }

  lemma SectionIsChunk(g: Gvt, values: seq<Sample>, k: nat)
    requires CurtainPlan.Curtain(g) && |values| == g.cube[2] && k < g.FragmentCount(2)
    ensures |Chunks(values, g.frag[2])| == g.FragmentCount(2)
    ensures Chunks(values, g.frag[2])[k] == Section(g, values, k)
  {
    ChunksCount(values, g.frag[2]);
    ChunkAt(values, g.frag[2], k);
  }

  /** The file ids of a list of files that are written out. */
  function Ids(out: seq<(Tuple, seq<Sample>)>): (r: seq<Tuple>)
    ensures |r| == |out|
  {
    seq(|out|, a requires 0 <= a < |out| => out[a].0)
  }

  predicate DistinctIds(ids: seq<Tuple>) {
    forall a, b :: 0 <= a < b < |ids| ==> ids[a] != ids[b]
  }

  /** The given files are taken out, each once, with the content they had. */
  ghost predicate TakenOut(before: Files, after: Files, out: seq<(Tuple, seq<Sample>)>, n: nat) {
    && DistinctIds(Ids(out))
    && (forall a :: 0 <= a < |out| ==> out[a].1 == GetFile(before, out[a].0, n))
    && (forall f :: f in after <==> f in before && f !in Ids(out))
    && (forall f :: f in after ==> after[f] == before[f])
  }

  lemma OneMoreOut(before: Files, after: Files, out: seq<(Tuple, seq<Sample>)>, n: nat, f: Tuple)
    requires TakenOut(before, after, out, n) && f !in Ids(out)
    ensures TakenOut(before, after - {f}, out + [(f, GetFile(after, f, n))], n)
    ensures Ids(out + [(f, GetFile(after, f, n))]) == Ids(out) + [f]
  {
    assert Ids(out + [(f, GetFile(after, f, n))]) == Ids(out) + [f];
  }

  /** The dictionary of a fileset: a file is made of zeros when it is first asked for. */
  class FileDict {
    const size: nat
    var files: map<Tuple, array<Sample>>

    ghost predicate Valid()
      reads this, files.Values
    {
      && (forall f :: f in files ==> files[f].Length == size)
      && (forall e, f :: e in files && f in files && e != f ==> files[e] != files[f])
    }

    ghost function Contents(): (r: Files)
      reads this, files.Values
      ensures Valid() ==> FilesFit(r, size)
    {
      map f | f in files :: files[f][..]
    }

    constructor (size: nat)
      ensures Valid() && this.size == size && files == map[]
    {
      this.size, files := size, map[];
    }

    method File(ident: Tuple) returns (a: array<Sample>)
      requires Valid()
      modifies this
      ensures Valid() && ident in files && files[ident] == a && a[..] == GetFile(old(Contents()), ident, size)
      ensures Contents() == old(Contents())[ident := a[..]]
      ensures if ident in old(files) then files == old(files) else fresh(a) && files == old(files)[ident := a]
      ensures fresh(files.Values - old(files.Values))
    {
      if ident !in files {
        a := new Sample[size](_ => 0);
        assert a[..] == ZeroSamples(size);
        assert forall f :: f in files ==> files[f] != a;
        files := files[ident := a];
      } else {
        a := files[ident];
      }
    }

    method WriteRow(ident: Tuple, at: nat, tr: seq<Sample>)
      requires Valid() && ident in files && at + |tr| <= size
      modifies files[ident]
      ensures Valid() && Contents() == old(Contents())[ident := Splice(old(Contents())[ident], at, tr)]
    {
      var fragment := files[ident];
      ghost var was := fragment[..];
      Memcpy(fragment, at, tr, 0, |tr|);
      assert fragment[..] == Splice(was, at, tr);
    }

    /** fragment[i, j, :len(tr)] = tr, for a row that starts at the given offset. */
    method Put(ident: Tuple, at: nat, tr: seq<Sample>)
      requires Valid() && at + |tr| <= size
      modifies this, files.Values
      ensures Valid() && fresh(files.Values - old(files.Values))
      ensures Contents() == old(Contents())[ident := Splice(GetFile(old(Contents()), ident, size), at, tr)]
    {
      ghost var before := Contents();
      var fragment := File(ident);
      WriteRow(ident, at, tr);
      UpdateTwice(before, ident, GetFile(before, ident, size), Contents()[ident]);
    }

    /** A file is handed out, and forgotten. */
    method Pop(ident: Tuple) returns (block: seq<Sample>)
      requires Valid()
      modifies this
      ensures Valid() && block == GetFile(old(Contents()), ident, size)
      ensures Contents() == old(Contents()) - {ident} && files.Values <= old(files.Values)
    {
      if ident in files {
        block := files[ident][..];
        files := files - {ident};
      } else {
        block := ZeroSamples(size);
      }
      assert files == old(files) - {ident};
    }
  }

  /** The loop of put: every section of a trace goes to its own file. */
  method PutTrace(
    files: FileDict, ghost g: Gvt, ghost x: nat, ghost y: nat, ghost values: seq<Sample>,
    index1: nat, index2: nat, at: nat, parts: seq<seq<Sample>>)
    requires CurtainPlan.Curtain(g) && |values| == g.cube[2] && files.size == Prod(g.frag) && files.Valid()
    requires parts == Chunks(values, g.frag[2]) && at == RowStart(g, x, y)
    requires CurtainPlan.Key(g, (x, y)) == (index1, index2)
    modifies files, files.files.Values
    ensures files.Valid() && fresh(files.files.Values - old(files.files.Values))
    ensures files.Contents() == PutSections(old(files.Contents()), g, x, y, values, g.FragmentCount(2))
  {
    ChunksCount(values, g.frag[2]);
    for index3 := 0 to |parts|
      invariant files.Valid() && fresh(files.files.Values - old(files.files.Values))
      invariant files.Contents() == PutSections(old(files.Contents()), g, x, y, values, index3)
    {
      SectionIsChunk(g, values, index3);
      SectionFits(g, x, y, values, index3);
      files.Put([index1, index2, index3], at, parts[index3]);
    }
  }

  /** All sections of a column. */
  method CommitColumn(
    files: FileDict, i: nat, j: nat, zsections: nat, ghost before: Files, out: seq<(Tuple, seq<Sample>)>)
    returns (more: seq<(Tuple, seq<Sample>)>)
    requires files.Valid() && TakenOut(before, files.Contents(), out, files.size)
    requires forall k: nat :: [i, j, k] !in Ids(out)
    modifies files
    ensures files.Valid() && files.files.Values <= old(files.files.Values)
    ensures TakenOut(before, files.Contents(), more, files.size)
    ensures forall f: Tuple ::
              f in Ids(more) <==> f in Ids(out) || (|f| == 3 && f[0] == i && f[1] == j && f[2] < zsections)
  {
    more := out;
    var todo := Below(zsections);
    while todo != {}
      invariant files.Valid() && files.files.Values <= old(files.files.Values)
      invariant todo <= Below(zsections) && TakenOut(before, files.Contents(), more, files.size)
      invariant forall f: Tuple :: f in Ids(more) <==>
                  f in Ids(out) || (|f| == 3 && f[0] == i && f[1] == j && f[2] < zsections && f[2] !in todo)
      decreases |todo|
    {
      var k :| k in todo;
      assert forall f: Tuple :: |f| == 3 && f[0] == i && f[1] == j && f[2] == k ==> f == [i, j, k];
      OneMoreOut(before, files.Contents(), more, files.size, [i, j, k]);
      var block := files.Pop([i, j, k]);
      more := more + [([i, j, k], block)];
      todo := todo - {k};
    }
  }

  /** set(range(n)) */
  function Below(n: nat): (r: set<nat>)
    ensures forall k: nat :: k in r <==> k < n
  {
    if n == 0 then {} else Below(n - 1) + {n - 1}
  }

  /** All files of a lane, column by column. */
  method CommitLane(files: FileDict, i: nat, js: set<nat>, zsections: nat) returns (out: seq<(Tuple, seq<Sample>)>)
    requires files.Valid()
    modifies files
    ensures files.Valid() && files.files.Values <= old(files.files.Values)
    ensures TakenOut(old(files.Contents()), files.Contents(), out, files.size)
    ensures forall f: Tuple :: f in Ids(out) <==> |f| == 3 && f[0] == i && f[1] in js && f[2] < zsections
  {
    out := [];
    var todo := js;
    while todo != {}
      invariant files.Valid() && files.files.Values <= old(files.files.Values)
      invariant todo <= js && TakenOut(old(files.Contents()), files.Contents(), out, files.size)
      invariant forall f: Tuple :: f in Ids(out) <==>
                  |f| == 3 && f[0] == i && f[1] in js && f[1] !in todo && f[2] < zsections
      decreases |todo|
    {
      var j :| j in todo;
      out := CommitColumn(files, i, j, zsections, old(files.Contents()), out);
      todo := todo - {j};
    }
  }

  class FileSet {
    const key1s: map<LineNo, nat>
    const key2s: map<LineNo, nat>
    const off1s: map<LineNo, nat>
    const off2s: map<LineNo, nat>
    const zsections: nat
    const shape: Tuple
    var traceno: nat
    var limits: map<nat, nat>
    const files: FileDict
    ghost const lines1: seq<LineNo>
    ghost const lines2: seq<LineNo>
    ghost const depth: nat

    ghost function Gvt(): Gvt {
      SurveyGvt(lines1, lines2, depth, shape)
    }

    /** The dictionaries are those of the lines. */
    ghost predicate LinesValid() {
      && Queries.Sorted(lines1) && Queries.Sorted(lines2) && CurtainPlan.Curtain(Gvt())
      && Numbered(lines1, shape[0], key1s, off1s) && Numbered(lines2, shape[1], key2s, off2s)
      && zsections == Gvt().FragmentCount(2) && files.size == Prod(shape)
    }

    ghost predicate Valid()
      reads files, files.files.Values
    {
      LinesValid() && files.Valid()
    }

    constructor (key1s: seq<LineNo>, key2s: seq<LineNo>, key3s: seq<int>, shape: Tuple)
      requires Queries.Sorted(key1s) && Queries.Sorted(key2s) && |key1s| > 0 && |key2s| > 0 && |key3s| > 0
      requires |shape| == 3 && Positive(shape)
      ensures Valid() && lines1 == key1s && lines2 == key2s && depth == |key3s| && this.shape == shape
      ensures traceno == 0 && limits == map[] && fresh(files) && files.files == map[]
    {
      this.shape, traceno, limits := shape, 0, map[];
      files := new FileDict(Prod(shape));
      lines1, lines2, depth := key1s, key2s, |key3s|;
      var k1, o1 := Enumerated(key1s, shape[0]);
      var k2, o2 := Enumerated(key2s, shape[1]);
      this.key1s, this.off1s, this.key2s, this.off2s := k1, o1, k2, o2;
      zsections := Count(|key3s|, shape[2]);
    }

    method Put(key1: LineNo, key2: LineNo, values: seq<Sample>)
      requires Valid() && key1 in lines1 && key2 in lines2 && |values| == depth
      modifies files, files.files.Values
      ensures Valid() && fresh(files.files.Values - old(files.files.Values))
      ensures files.Contents() == PutSections(old(files.Contents()), Gvt(), PositionOf(lines1, key1),
                                    PositionOf(lines2, key2), values, Gvt().FragmentCount(2))
    {
      var index1, index2, at := Locate(key1, key2);
      var parts := SplitArray(values, shape[2]);
      PutTrace(files, Gvt(), PositionOf(lines1, key1), PositionOf(lines2, key2), values, index1, index2, at, parts);
    }

    /** The column a pair of lines is in, and where its row starts in the fragments. */
    method Locate(key1: LineNo, key2: LineNo) returns (index1: nat, index2: nat, at: nat)
      requires Valid() && key1 in lines1 && key2 in lines2
      ensures (index1, index2) == CurtainPlan.Key(Gvt(), (PositionOf(lines1, key1), PositionOf(lines2, key2)))
      ensures at == RowStart(Gvt(), PositionOf(lines1, key1), PositionOf(lines2, key2))
    {
      ghost var x, y := PositionOf(lines1, key1), PositionOf(lines2, key2);
      assert NumberedAt(lines1, shape[0], key1s, off1s, x) && NumberedAt(lines2, shape[1], key2s, off2s, y);
      DivMod(x, shape[0]);
      DivMod(y, shape[1]);
      index1, index2 := key1s[key1], key2s[key2];
      at := RowOffset(off1s[key1], off2s[key2], shape);
    }

    /** The last trace of every lane, from the last trace of every line. */
    method SetLimits(last: map<LineNo, nat>)
      requires Valid() && limits == map[] && forall k :: k in last ==> k in lines1
      modifies this`limits
      ensures MaxOf(key1s, last, last.Keys, limits)
    {
      limits := MaxPerLane(key1s, last);
    }

    /**
     * When this was the last trace of the lane, hand out all of the lane's
     * files; then count the trace.
     */
    method Commit(key1: LineNo) returns (out: seq<(Tuple, seq<Sample>)>)
      requires Valid() && key1 in lines1 && key1s[key1] in limits
      modifies files, this`traceno
      ensures Valid() && traceno == old(traceno) + 1 && files.files.Values <= old(files.files.Values)
      ensures TakenOut(old(files.Contents()), files.Contents(), out, Prod(shape))
      ensures forall f: Tuple :: f in Ids(out) <==>
                limits[key1s[key1]] == old(traceno)
                && |f| == 3 && f[0] == key1s[key1] && f[1] < Gvt().FragmentCount(1) && f[2] < Gvt().FragmentCount(2)
    {
      out := [];
      var index1 := key1s[key1];
      if limits[index1] == traceno {
        ColumnsOf(lines2, shape[1], key2s, off2s);
        out := CommitLane(files, index1, key2s.Values, zsections);
      }
      traceno := traceno + 1;
    }
  }

  method MaxPerLane(keys: map<LineNo, nat>, last: map<LineNo, nat>) returns (limits: map<nat, nat>)
    requires forall k :: k in last ==> k in keys
    ensures MaxOf(keys, last, last.Keys, limits)
  {
    limits := map[];
    var todo := last.Items;
    ghost var done: set<LineNo> := {};
    while todo != {}
      invariant todo <= last.Items && done <= last.Keys
      invariant forall k :: k in last ==> (k in done <==> (k, last[k]) !in todo)
      invariant MaxOf(keys, last, done, limits)
      decreases |todo|
    {
      var item :| item in todo;
      var (k, v) := item;
      var x := keys[k];
      var limit := if x in limits then limits[x] else 0;
      MaxOfMore(keys, last, done, limits, k);
      limits := limits[x := if v >= limit then v else limit];
      todo, done := todo - {item}, done + {k};
    }
    forall k | k in last
      ensures k in done
    {
      assert (k, last[k]) !in todo;
    }
    assert done == last.Keys;
  }

  /** The values of the dictionary are all fragment indices. */
  lemma ColumnsOf(lines: seq<LineNo>, s: nat, keys: map<LineNo, nat>, offs: map<LineNo, nat>)
    requires Numbered(lines, s, keys, offs)
    ensures forall j: nat :: j in keys.Values <==> j < Count(|lines|, s)
  {
    forall j: nat
      ensures j in keys.Values <==> j < Count(|lines|, s)
    {
      if j < Count(|lines|, s) {
        RealExtent(|lines|, s, j);
        LocalToGlobal(|lines|, s, j, 0);
        assert NumberedAt(lines, s, keys, offs, j * s);
      }
      if j in keys.Values {
        var k :| k in keys && keys[k] == j;
        var i :| 0 <= i < |lines| && lines[i] == k;
        assert NumberedAt(lines, s, keys, offs, i);
        GlobalToLocal(|lines|, s, i);
      }
    }
  }

  /** Of every lane, the largest number among its lines; only lines that are done count. */
  ghost predicate MaxOf(keys: map<LineNo, nat>, last: map<LineNo, nat>, done: set<LineNo>, limits: map<nat, nat>)
  {
    && (forall k :: k in done ==> k in last && k in keys && keys[k] in limits && last[k] <= limits[keys[k]])
    && (forall i :: i in limits ==> LimitIsLast(keys, last, done, limits[i], i))
  }

  ghost predicate LimitIsLast(keys: map<LineNo, nat>, last: map<LineNo, nat>, done: set<LineNo>, limit: nat, i: nat) {
    exists k :: k in done && k in last && k in keys && keys[k] == i && last[k] == limit
  }

  lemma MaxOfMore(keys: map<LineNo, nat>, last: map<LineNo, nat>, done: set<LineNo>, limits: map<nat, nat>, k: LineNo)
    requires MaxOf(keys, last, done, limits) && k in last && k in keys
    ensures var limit := if keys[k] in limits then limits[keys[k]] else 0;
            MaxOf(keys, last, done + {k}, limits[keys[k] := if last[k] >= limit then last[k] else limit])
  {
    var limit := if keys[k] in limits then limits[keys[k]] else 0;
    var next := limits[keys[k] := if last[k] >= limit then last[k] else limit];
    forall i | i in next
      ensures LimitIsLast(keys, last, done + {k}, next[i], i)
    {
      if i == keys[k] && last[k] >= limit {
        assert k in done + {k};
      } else {
        assert LimitIsLast(keys, last, done, limits[i], i);
        var e :| e in done && e in last && e in keys && keys[e] == i && last[e] == limits[i];
        assert e in done + {k};
      }
    }
  }

  lemma UpdateTwice<K, V>(m: map<K, V>, k: K, a: V, b: V)
    ensures m[k := a][k := b] == m[k := b]
  {}

  /** Where row (i, j) starts in a C-ordered array. */
  method RowOffset(i: nat, j: nat, shape: Tuple) returns (at: nat)
    requires |shape| == 3 && Positive(shape) && i < shape[0] && j < shape[1]
    ensures at == Offset([i, j, 0], shape)
  {
    Row3(i, j, 0, shape);
    MulMono(0, i, shape[1]);
    MulMono(0, i * shape[1] + j, shape[2]);
    at := (i * shape[1] + j) * shape[2];
  }

  /** Which fragment a line is in, and where. */
  ghost predicate Numbered(lines: seq<LineNo>, s: nat, keys: map<LineNo, nat>, offs: map<LineNo, nat>) {
    s > 0 && (forall k :: k in keys <==> k in lines) && (forall k :: k in offs <==> k in lines) &&
    forall i :: 0 <= i < |lines| ==> NumberedAt(lines, s, keys, offs, i)
  }

  ghost predicate NumberedAt(lines: seq<LineNo>, s: nat, keys: map<LineNo, nat>, offs: map<LineNo, nat>, i: nat)
    requires s > 0 && i < |lines|
  {
    lines[i] in keys && keys[lines[i]] == i / s && lines[i] in offs && offs[lines[i]] == i % s
  }

  /** The dictionaries of the constructor. */
  method Enumerated(lines: seq<LineNo>, s: nat) returns (keys: map<LineNo, nat>, offs: map<LineNo, nat>)
    requires Queries.Sorted(lines) && s > 0
    ensures Numbered(lines, s, keys, offs)
  {
    keys, offs := map[], map[];
    for i := 0 to |lines|
      invariant forall k :: k in keys <==> k in lines[..i]
      invariant forall k :: k in offs <==> k in lines[..i]
      invariant forall m :: 0 <= m < i ==> NumberedAt(lines, s, keys, offs, m)
    {
      DivMod(i, s);
      assert lines[..i + 1] == lines[..i] + [lines[i]];
      ghost var before := (keys, offs);
      keys := keys[lines[i] := i / s];
      offs := offs[lines[i] := i % s];
      forall m | 0 <= m < i
        ensures NumberedAt(lines, s, keys, offs, m)
      {
        assert NumberedAt(lines, s, before.0, before.1, m);
      }
    }
    assert lines[..|lines|] == lines;
  }
}
