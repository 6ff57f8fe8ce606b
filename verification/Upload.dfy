/**
 * Cutting a survey in fragments while it is read: fileset and the trace loop
 * of python/oneseismic/upload/upload.py. A lane is all fragments with the same
 * first index; it is written out when its last trace is in.
 */
module Upload {
  import opened Arith
  import opened Shapes
  import opened Geometry
  import opened Strides
  import opened Cells
  import opened Messages
  import opened Survey
  import CurtainPlan

  /*
   * What fragments should hold
   */

  /** A fragment of a cube, with zeros in the padding. */
  function Fragmented(g: Gvt, cube: Cube, fid: Tuple): (r: seq<Sample>)
    requires g.Valid() && |fid| == |g.cube|
    ensures |r| == Prod(g.frag)
  {
    seq(Prod(g.frag), o requires 0 <= o < Prod(g.frag) =>
      var p := g.Global(fid, PointAt(o, g.frag)); if InShape(p, g.cube) then cube(p) else 0)
  }

  /** Fragments of this kind are what the workers rely on. */
  lemma FragmentedStored(store: Store, g: Gvt, cube: Cube)
    requires g.Valid()
    requires forall fid :: InShape(fid, g.Counts()) ==> fid in store && store[fid] == Fragmented(g, cube, fid)
    ensures Stores(store, g, cube)
  {
    forall fid | InShape(fid, g.Counts())
      ensures FragmentStored(store, g, cube, fid)
    {
      forall l | InShape(l, g.RealShape(fid))
        ensures Offset(l, g.frag) < Prod(g.frag) && store[fid][Offset(l, g.frag)] == cube(g.Global(fid, l))
      {
        RealShapeBounds(g, fid);
        assert InShape(l, g.frag);
        OffsetBound(l, g.frag);
        PointOfOffset(l, g.frag);
        FragmentRoundTrip(g, fid, l);
      }
    }
  }

  /*
   * Putting one trace
   */

  /** The cube with the values of a trace put in at lines x and y. */
  ghost predicate WithTrace(g: Gvt, before: Cube, after: Cube, x: nat, y: nat, values: seq<Sample>)
    requires CurtainPlan.Curtain(g) && |values| == g.cube[2]
  {
    forall p: Tuple :: InShape(p, g.cube) ==> after(p) == if p[0] == x && p[1] == y then values[p[2]] else before(p)
  }

  /** The part of a trace that goes to section k. */
  function Section(g: Gvt, values: seq<Sample>, k: nat): (r: seq<Sample>)
    requires CurtainPlan.Curtain(g) && |values| == g.cube[2] && k < g.FragmentCount(2)
    ensures |r| == Min(g.frag[2], g.cube[2] - k * g.frag[2]) && 0 < |r| <= g.frag[2]
  {
    RealExtent(g.cube[2], g.frag[2], k);
    MulMono(0, k, g.frag[2]);
    values[k * g.frag[2]..k * g.frag[2] + Min(g.frag[2], g.cube[2] - k * g.frag[2])]
  }

  function RowStart(g: Gvt, x: nat, y: nat): nat
    requires CurtainPlan.Curtain(g)
  {
    var l := CurtainPlan.Lateral(g, (x, y));
    Offset([l.0, l.1, 0], g.frag)
  }

  /** Where the samples of a row are. */
  lemma RowAt(g: Gvt, x: nat, y: nat, j: nat)
    requires CurtainPlan.Curtain(g) && j < g.frag[2]
    ensures var l := CurtainPlan.Lateral(g, (x, y));
            RowStart(g, x, y) + j == Offset([l.0, l.1, j], g.frag) < Prod(g.frag) && InShape([l.0, l.1, j], g.frag)
  {
    var l := CurtainPlan.Lateral(g, (x, y));
    DivMod(x, g.frag[0]);
    DivMod(y, g.frag[1]);
    Row3(l.0, l.1, 0, g.frag);
    Row3(l.0, l.1, j, g.frag);
    OffsetBound([l.0, l.1, j], g.frag);
  }

  lemma SectionFits(g: Gvt, x: nat, y: nat, values: seq<Sample>, k: nat)
    requires CurtainPlan.Curtain(g) && |values| == g.cube[2] && k < g.FragmentCount(2)
    ensures RowStart(g, x, y) + |Section(g, values, k)| <= Prod(g.frag)
  {
    RowAt(g, x, y, |Section(g, values, k)| - 1);
  }

  /** The fragment of lines x and y in section k. */
  function FragmentAt(g: Gvt, x: nat, y: nat, k: nat): (r: Tuple)
    requires CurtainPlan.Curtain(g)
    ensures |r| == 3
  {
    var key := CurtainPlan.Key(g, (x, y));
    [key.0, key.1, k]
  }

  /** The sample at a local point of a fragment. */
  lemma SampleAt(g: Gvt, cube: Cube, fid: Tuple, l: Tuple)
    requires g.Valid() && |fid| == |g.cube| && InShape(l, g.frag)
    ensures Offset(l, g.frag) < Prod(g.frag)
    ensures Fragmented(g, cube, fid)[Offset(l, g.frag)]
            == var p := g.Global(fid, l); if InShape(p, g.cube) then cube(p) else 0
  {
    OffsetBound(l, g.frag);
    PointOfOffset(l, g.frag);
  }

  /** The cube point of sample j of the row of lines x and y. */
  lemma RowPoint(g: Gvt, x: nat, y: nat, k: nat, j: nat)
    requires CurtainPlan.Curtain(g) && j < g.frag[2]
    ensures var l := CurtainPlan.Lateral(g, (x, y));
            0 <= k * g.frag[2] + j && g.Global(FragmentAt(g, x, y, k), [l.0, l.1, j]) == [x, y, k * g.frag[2] + j]
  {
    DivMod(x, g.frag[0]);
    DivMod(y, g.frag[1]);
    MulMono(0, k, g.frag[2]);
  }

  /** Sample j of a section is a sample of the trace, at a depth of the cube. */
  lemma SectionSample(g: Gvt, values: seq<Sample>, k: nat, j: nat)
    requires CurtainPlan.Curtain(g) && |values| == g.cube[2] && k < g.FragmentCount(2)
    requires j < |Section(g, values, k)|
    ensures 0 <= k * g.frag[2] + j < g.cube[2] && j < g.frag[2]
    ensures Section(g, values, k)[j] == values[k * g.frag[2] + j]
  {
    RealExtent(g.cube[2], g.frag[2], k);
    MulMono(0, k, g.frag[2]);
  }

  /** The sample of a fragment at place j of a row is that of the cube point there. */
  lemma RowSample(g: Gvt, cube: Cube, x: nat, y: nat, k: nat, j: nat, p: Tuple)
    requires CurtainPlan.Curtain(g) && j < g.frag[2] && InShape(p, g.cube)
    requires |p| == 3 && p[0] == x && p[1] == y && p[2] == k * g.frag[2] + j
    ensures RowStart(g, x, y) + j < Prod(g.frag)
    ensures Fragmented(g, cube, FragmentAt(g, x, y, k))[RowStart(g, x, y) + j] == cube(p)
  {
    var l := CurtainPlan.Lateral(g, (x, y));
    RowAt(g, x, y, j);
    RowPoint(g, x, y, k, j);
    assert p == g.Global(FragmentAt(g, x, y, k), [l.0, l.1, j]);
    SampleAt(g, cube, FragmentAt(g, x, y, k), [l.0, l.1, j]);
  }

  /** Sample j of the row of a trace is the trace's, after it is put. */
  lemma SampleInRow(g: Gvt, before: Cube, after: Cube, x: nat, y: nat, values: seq<Sample>, k: nat, j: nat)
    requires CurtainPlan.Curtain(g) && |values| == g.cube[2] && k < g.FragmentCount(2)
    requires x < g.cube[0] && y < g.cube[1] && WithTrace(g, before, after, x, y, values)
    requires j < |Section(g, values, k)|
    ensures RowStart(g, x, y) + j < Prod(g.frag)
    ensures Fragmented(g, after, FragmentAt(g, x, y, k))[RowStart(g, x, y) + j] == Section(g, values, k)[j]
  {
    SectionSample(g, values, k, j);
    var p: Tuple := [x, y, k * g.frag[2] + j];
    assert InShape(p, g.cube);
    assert after(p) == values[p[2]];
    RowSample(g, after, x, y, k, j, p);
  }

  /** A sample outside that row stays as it is. */
  lemma SampleElsewhere(
    g: Gvt, before: Cube, after: Cube, x: nat, y: nat, values: seq<Sample>, k: nat, o: nat, l: Tuple)
    requires CurtainPlan.Curtain(g) && |values| == g.cube[2] && k < g.FragmentCount(2)
    requires x < g.cube[0] && y < g.cube[1] && WithTrace(g, before, after, x, y, values)
    requires o < Prod(g.frag) && l == PointAt(o, g.frag) && InShape(l, g.frag) && Offset(l, g.frag) == o
    requires !(RowStart(g, x, y) <= o < RowStart(g, x, y) + |Section(g, values, k)|)
    ensures Fragmented(g, after, FragmentAt(g, x, y, k))[o] == Fragmented(g, before, FragmentAt(g, x, y, k))[o]
  {
    var fid, p := FragmentAt(g, x, y, k), g.Global(FragmentAt(g, x, y, k), l);
    if p[0] == x && p[1] == y {
      InRow(g, x, y, k, l);
      assert l[2] >= |Section(g, values, k)|;
      RealExtent(g.cube[2], g.frag[2], k);
      assert !InShape(p, g.cube);
    }
  }

  /** A local point whose cube point is on lines x and y is in their row. */
  lemma InRow(g: Gvt, x: nat, y: nat, k: nat, l: Tuple)
    requires CurtainPlan.Curtain(g) && InShape(l, g.frag)
    requires var p := g.Global(FragmentAt(g, x, y, k), l); p[0] == x && p[1] == y
    ensures Offset(l, g.frag) == RowStart(g, x, y) + l[2]
  {
    DivMod(x, g.frag[0]);
    DivMod(y, g.frag[1]);
    var lateral := CurtainPlan.Lateral(g, (x, y));
    RowAt(g, x, y, l[2]);
    assert l == [lateral.0, lateral.1, l[2]];
  }

  /** One sample of a fragment, before and after a trace is put. */
  lemma SampleAfter(g: Gvt, before: Cube, after: Cube, x: nat, y: nat, values: seq<Sample>, k: nat, o: nat)
    requires CurtainPlan.Curtain(g) && |values| == g.cube[2] && k < g.FragmentCount(2)
    requires x < g.cube[0] && y < g.cube[1] && WithTrace(g, before, after, x, y, values) && o < Prod(g.frag)
    ensures var fid, at, part := FragmentAt(g, x, y, k), RowStart(g, x, y), Section(g, values, k);
            Fragmented(g, after, fid)[o]
            == if at <= o < at + |part| then part[o - at] else Fragmented(g, before, fid)[o]
  {
    var at, part := RowStart(g, x, y), Section(g, values, k);
    if at <= o < at + |part| {
      SampleInRow(g, before, after, x, y, values, k, o - at);
    } else {
      OffsetSurjective(o, g.frag);
      SampleElsewhere(g, before, after, x, y, values, k, o, PointAt(o, g.frag));
    }
  }

  /** In a fragment of the trace's column, putting the trace replaces a part of one row. */
  lemma PutFragment(g: Gvt, before: Cube, after: Cube, x: nat, y: nat, values: seq<Sample>, k: nat)
    requires CurtainPlan.Curtain(g) && |values| == g.cube[2] && k < g.FragmentCount(2)
    requires x < g.cube[0] && y < g.cube[1] && WithTrace(g, before, after, x, y, values)
    ensures RowStart(g, x, y) + |Section(g, values, k)| <= Prod(g.frag)
    ensures Fragmented(g, after, FragmentAt(g, x, y, k))
            == Splice(Fragmented(g, before, FragmentAt(g, x, y, k)), RowStart(g, x, y), Section(g, values, k))
  {
    SectionFits(g, x, y, values, k);
    forall o | 0 <= o < Prod(g.frag)
      ensures Fragmented(g, after, FragmentAt(g, x, y, k))[o]
              == Splice(Fragmented(g, before, FragmentAt(g, x, y, k)), RowStart(g, x, y), Section(g, values, k))[o]
    {
      SampleAfter(g, before, after, x, y, values, k, o);
    }
  }

  /** Fragments of other columns stay as they are. */
  lemma OtherFragment(g: Gvt, before: Cube, after: Cube, x: nat, y: nat, values: seq<Sample>, fid: Tuple)
    requires CurtainPlan.Curtain(g) && |values| == g.cube[2] && x < g.cube[0] && y < g.cube[1]
    requires WithTrace(g, before, after, x, y, values) && |fid| == 3
    requires (fid[0], fid[1]) != CurtainPlan.Key(g, (x, y))
    ensures Fragmented(g, after, fid) == Fragmented(g, before, fid)
  {
    forall o | 0 <= o < Prod(g.frag)
      ensures Fragmented(g, after, fid)[o] == Fragmented(g, before, fid)[o]
    {
      OffsetSurjective(o, g.frag);
      var l := PointAt(o, g.frag);
      var p := g.Global(fid, l);
      if p[0] == x && p[1] == y {
        DivModUnique(x, g.frag[0], fid[0], l[0]);
        DivModUnique(y, g.frag[1], fid[1], l[1]);
      }
    }
  }

  /*
   * The files of a fileset
   */

  type Files = map<Tuple, seq<Sample>>

  /** A file that was never written to is all zeros. */
  function GetFile(files: Files, fid: Tuple, n: nat): seq<Sample> {
    if fid in files then files[fid] else ZeroSamples(n)
  }

  predicate FilesFit(files: Files, n: nat) {
    forall f :: f in files ==> |files[f]| == n
  }

  /** The files after the first n sections of a trace are put. */
  function PutSections(files: Files, g: Gvt, x: nat, y: nat, values: seq<Sample>, n: nat): (r: Files)
    requires CurtainPlan.Curtain(g) && |values| == g.cube[2] && n <= g.FragmentCount(2) && FilesFit(files, Prod(g.frag))
    ensures FilesFit(r, Prod(g.frag))
  {
    if n == 0 then files
    else
      var before := PutSections(files, g, x, y, values, n - 1);
      var fid := FragmentAt(g, x, y, n - 1);
      SectionFits(g, x, y, values, n - 1);
      before[fid := Splice(GetFile(before, fid, Prod(g.frag)), RowStart(g, x, y), Section(g, values, n - 1))]
  }

  /** Every section changes its own file, and no other. */
  lemma {:induction false} PutSectionsAt(
    files: Files, g: Gvt, x: nat, y: nat, values: seq<Sample>, n: nat, fid: Tuple)
    requires CurtainPlan.Curtain(g) && |values| == g.cube[2] && n <= g.FragmentCount(2) && FilesFit(files, Prod(g.frag))
    requires |fid| == 3
    ensures var after := PutSections(files, g, x, y, values, n);
            if fid[2] < n && fid == FragmentAt(g, x, y, fid[2]) then
              && RowStart(g, x, y) + |Section(g, values, fid[2])| <= Prod(g.frag) && fid in after
              && after[fid] == Splice(GetFile(files, fid, Prod(g.frag)), RowStart(g, x, y), Section(g, values, fid[2]))
            else
              && (fid in after <==> fid in files)
              && GetFile(after, fid, Prod(g.frag)) == GetFile(files, fid, Prod(g.frag))
  {
    if n > 0 {
      PutSectionsAt(files, g, x, y, values, n - 1, fid);
      SectionFits(g, x, y, values, n - 1);
    }
  }

  /** A fragment that holds the cube so far holds it also after the next trace. */
  lemma PutKeeps(
    files: Files, g: Gvt, before: Cube, after: Cube, x: nat, y: nat, values: seq<Sample>, fid: Tuple)
    requires CurtainPlan.Curtain(g) && |values| == g.cube[2] && FilesFit(files, Prod(g.frag))
    requires x < g.cube[0] && y < g.cube[1] && WithTrace(g, before, after, x, y, values)
    requires InShape(fid, g.Counts()) && GetFile(files, fid, Prod(g.frag)) == Fragmented(g, before, fid)
    ensures GetFile(PutSections(files, g, x, y, values, g.FragmentCount(2)), fid, Prod(g.frag))
            == Fragmented(g, after, fid)
  {
    PutSectionsAt(files, g, x, y, values, g.FragmentCount(2), fid);
    assert fid[2] < g.Counts()[2];
    if fid == FragmentAt(g, x, y, fid[2]) {
      PutFragment(g, before, after, x, y, values, fid[2]);
    } else {
      assert fid == [fid[0], fid[1], fid[2]];
      OtherFragment(g, before, after, x, y, values, fid);
    }
  }

  /*
   * Lines, traces and lanes
   */

  /** The position of a line. */
  ghost function PositionOf(lines: seq<int>, key: int): (i: nat)
    requires key in lines
    ensures i < |lines| && lines[i] == key
  {
    var i: nat :| i < |lines| && lines[i] == key;
    i
  }

  /** The survey is not empty, its traces have the given depth, and the lines are its lines. */
  ghost predicate SurveyValid(traces: seq<Trace>, lines1: seq<int>, lines2: seq<int>, depth: nat) {
    && |traces| > 0 && depth > 0 && LinesAre(traces, lines1, lines2)
    && forall m :: 0 <= m < |traces| ==> |traces[m].values| == depth
  }

  ghost function SurveyGvt(lines1: seq<int>, lines2: seq<int>, depth: nat, shape: Tuple): Gvt {
    Gvt([|lines1|, |lines2|, depth], shape)
  }

  lemma SurveyLines(traces: seq<Trace>, lines1: seq<int>, lines2: seq<int>, depth: nat, m: nat)
    requires SurveyValid(traces, lines1, lines2, depth) && m < |traces|
    ensures traces[m].key1 in lines1 && traces[m].key2 in lines2
    ensures |lines1| > 0 && |lines2| > 0
  {
    assert Keys1(traces)[m] == traces[m].key1 && Keys2(traces)[m] == traces[m].key2;
  }

  /** The next trace makes the next cube. */
  lemma NextCube(traces: seq<Trace>, lines1: seq<int>, lines2: seq<int>, depth: nat, shape: Tuple, n: nat)
    requires SurveyValid(traces, lines1, lines2, depth) && n < |traces| && |shape| == 3 && Positive(shape)
    ensures traces[n].key1 in lines1 && traces[n].key2 in lines2
    ensures CurtainPlan.Curtain(SurveyGvt(lines1, lines2, depth, shape))
    ensures WithTrace(SurveyGvt(lines1, lines2, depth, shape),
              SurveyCube(traces, n, lines1, lines2), SurveyCube(traces, n + 1, lines1, lines2),
              PositionOf(lines1, traces[n].key1), PositionOf(lines2, traces[n].key2), traces[n].values)
  {
    SurveyLines(traces, lines1, lines2, depth, n);
    var g, t := SurveyGvt(lines1, lines2, depth, shape), traces[n];
    var x, y := PositionOf(lines1, t.key1), PositionOf(lines2, t.key2);
    forall p: Tuple | InShape(p, g.cube)
      ensures SurveyCube(traces, n + 1, lines1, lines2)(p)
              == if p[0] == x && p[1] == y then t.values[p[2]] else SurveyCube(traces, n, lines1, lines2)(p)
    {
      assert p[0] < |lines1| && p[1] < |lines2| && p[2] < depth;
      assert lines1[p[0]] == t.key1 <==> p[0] == x;
      assert lines2[p[1]] == t.key2 <==> p[1] == y;
    }
  }

  /** The lane of a trace. */
  ghost function LaneOf(traces: seq<Trace>, lines1: seq<int>, s: nat, m: nat): nat
    requires m < |traces| && traces[m].key1 in lines1 && s > 0
  {
    DivMod(PositionOf(lines1, traces[m].key1), s);
    PositionOf(lines1, traces[m].key1) / s
  }

  /** Of every lane, the number of its last trace. */
  ghost predicate LimitsAre(traces: seq<Trace>, lines1: seq<int>, s: nat, limits: map<nat, nat>)
  {
    && s > 0
    && (forall i :: i in limits <==> 0 <= i < Count(|lines1|, s))
    && (forall i :: i in limits ==> LastOfLane(traces, lines1, s, limits[i], i))
  }

  ghost predicate LastOfLane(traces: seq<Trace>, lines1: seq<int>, s: nat, last: nat, i: nat) {
    InLane(traces, lines1, s, last, i) && forall m: nat :: InLane(traces, lines1, s, m, i) ==> m <= last
  }

  ghost predicate InLane(traces: seq<Trace>, lines1: seq<int>, s: nat, m: nat, i: nat) {
    s > 0 && m < |traces| && traces[m].key1 in lines1 && LaneOf(traces, lines1, s, m) == i
  }
}
