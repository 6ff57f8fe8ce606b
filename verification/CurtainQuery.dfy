/**
 * A curtain from end to end, for one attribute: what the bundles of its tasks
 * write, and that it covers the requested traces exactly.
 */
module CurtainQuery {
  import opened Arith
  import opened Lists
  import opened Shapes
  import opened Geometry
  import opened Cells
  import opened Messages
  import opened Extraction
  import opened CurtainPlan
  import opened CurtainWorker

  /** The requested traces, one after the other. */
  function CurtainTarget(g: Gvt, pts: seq<Point>, cube: Cube): (r: seq<Sample>)
    requires Curtain(g)
    ensures |r| == |pts| * g.cube[2]
  {
    MulMono(0, |pts|, g.cube[2]);
    seq(|pts| * g.cube[2], x requires 0 <= x < |pts| * g.cube[2] =>
      CellOf(g, pts, x);
      cube([pts[x / g.cube[2]].0, pts[x / g.cube[2]].1, x % g.cube[2]]))
  }

  lemma CellOf(g: Gvt, pts: seq<Point>, x: int)
    requires Curtain(g) && 0 <= x < |pts| * g.cube[2]
    ensures 0 <= x / g.cube[2] < |pts| && 0 <= x % g.cube[2] < g.cube[2]
    ensures x == (x / g.cube[2]) * g.cube[2] + x % g.cube[2]
  {
    DivMod(x, g.cube[2]);
    DivUpper(x, g.cube[2], |pts|);
  }

  /** The value requested for row r at depth d. */
  lemma TargetAt(g: Gvt, pts: seq<Point>, cube: Cube, r: nat, d: nat)
    requires Curtain(g) && r < |pts| && d < g.cube[2]
    ensures r * g.cube[2] + d < |CurtainTarget(g, pts, cube)|
    ensures CurtainTarget(g, pts, cube)[r * g.cube[2] + d] == cube([pts[r].0, pts[r].1, d])
  {
    RowMajorBound(r, d, g.cube[2], |pts|);
    DivModUnique(r * g.cube[2] + d, g.cube[2], r, d);
  }

  /*
   * What a fragment writes
   */

  /** The cells of one trace of a fragment. */
  function TracePiece(g: Gvt, s: Single, chunk: seq<Sample>, m: nat): (r: seq<Write>)
    requires Curtain(g) && SingleValid(g, s) && |chunk| == Prod(g.frag) && m < |s.coordinates|
    ensures |r| == Depth(g, s.id)
  {
    Chunk((s.offset + m) * g.cube[2] + FirstDepth(g, s), TraceOf(g, s, chunk, m), 0, Depth(g, s.id))
  }

  function TracePieces(g: Gvt, s: Single, chunk: seq<Sample>): (r: seq<seq<Write>>)
    requires Curtain(g) && SingleValid(g, s) && |chunk| == Prod(g.frag)
    ensures |r| == |s.coordinates|
  {
    seq(|s.coordinates|, m requires 0 <= m < |s.coordinates| => TracePiece(g, s, chunk, m))
  }

  /** The cells a fragment of a curtain writes. */
  function SinglePiece(g: Gvt, s: Single, chunk: seq<Sample>): seq<Write>
    requires Curtain(g) && SingleValid(g, s) && |chunk| == Prod(g.frag)
  {
    Flatten(TracePieces(g, s, chunk))
  }

  function SinglePieces(task: CurtainTask, store: Store): (r: seq<seq<Write>>)
    requires TaskValid(task) && Stored(task, store)
    ensures |r| == |task.ids|
  {
    seq(|task.ids|, k requires 0 <= k < |task.ids| =>
      SinglePiece(task.volume.Gvt(), task.ids[k], store[task.ids[k].id]))
  }

  /*
   * The bundle of a task writes the cells of its fragments
   */

  /** The segment of fragment k sits between two prefix sums. */
  lemma ValuesSegment(task: CurtainTask, store: Store, k: nat)
    requires TaskValid(task) && Stored(task, store) && k < |task.ids|
    ensures var g, s, values := task.volume.Gvt(), task.ids[k], BodyOf(task, store).values;
            && Start(g, task.ids, k) <= Start(g, task.ids, k + 1) <= |values|
            && values[Start(g, task.ids, k)..Start(g, task.ids, k + 1)] == Segment(g, s, store[s.id], |s.coordinates|)
  {
    FlattenSlice(Segments(task, store), k, |task.ids|);
    StartIs(task, store, k);
    StartIs(task, store, k + 1);
  }

  lemma {:induction false} SegmentTrace(g: Gvt, s: Single, chunk: seq<Sample>, m: nat, n: nat)
    requires Curtain(g) && SingleValid(g, s) && |chunk| == Prod(g.frag) && m < n <= |s.coordinates|
    ensures 0 <= m * Depth(g, s.id) <= m * Depth(g, s.id) + Depth(g, s.id) <= |Segment(g, s, chunk, n)|
    ensures Segment(g, s, chunk, n)[m * Depth(g, s.id)..m * Depth(g, s.id) + Depth(g, s.id)]
            == TraceOf(g, s, chunk, m)
  {
    SegmentRoom(m, n, Depth(g, s.id));
    if m + 1 < n {
      SegmentRoom(m, n - 1, Depth(g, s.id));
      SegmentTrace(g, s, chunk, m, n - 1);
    }
  }

  /** Trace m of a fragment whose segment starts at start sits in the values. */
  predicate TraceInValues(g: Gvt, s: Single, chunk: seq<Sample>, v: seq<Sample>, start: nat, m: nat)
    requires Curtain(g) && SingleValid(g, s) && |chunk| == Prod(g.frag) && m < |s.coordinates|
  {
    var at, d := start + m * Depth(g, s.id), Depth(g, s.id);
    0 <= at && at + d <= |v| && v[at..at + d] == TraceOf(g, s, chunk, m)
  }

  lemma TraceInSegment(g: Gvt, s: Single, chunk: seq<Sample>, v: seq<Sample>, lo: nat, hi: nat, m: nat)
    requires Curtain(g) && SingleValid(g, s) && |chunk| == Prod(g.frag) && m < |s.coordinates|
    requires lo <= hi <= |v| && v[lo..hi] == Segment(g, s, chunk, |s.coordinates|)
    ensures TraceInValues(g, s, chunk, v, lo, m)
  {
    SegmentTrace(g, s, chunk, m, |s.coordinates|);
    SliceOfSlice(v, lo, hi, m * Depth(g, s.id), m * Depth(g, s.id) + Depth(g, s.id));
  }

  lemma ValuesTrace(task: CurtainTask, store: Store, k: nat, m: nat)
    requires TaskValid(task) && Stored(task, store) && k < |task.ids| && m < |task.ids[k].coordinates|
    ensures var g, s := task.volume.Gvt(), task.ids[k];
            TraceInValues(g, s, store[s.id], BodyOf(task, store).values, Start(g, task.ids, k), m)
  {
    var g, s := task.volume.Gvt(), task.ids[k];
    ValuesSegment(task, store, k);
    TraceInSegment(g, s, store[s.id], BodyOf(task, store).values,
      Start(g, task.ids, k), Start(g, task.ids, k + 1), m);
  }

  lemma SameChunk(at: nat, v: seq<Sample>, from: nat, part: seq<Sample>, n: nat)
    requires from + n <= |v| && v[from..from + n] == part
    ensures Chunk(at, v, from, n) == Chunk(at, part, 0, n)
  {
    assert forall j :: 0 <= j < n ==> v[from + j] == part[j] by {
      forall j | 0 <= j < n
        ensures v[from + j] == part[j]
      {
        assert v[from..from + n][j] == v[from + j];
      }
    }
  }

  /** The run of a fragment in its bundle. */
  function RunOf(g: Gvt, s: Single): Run
    requires Curtain(g) && |s.id| == 3
  {
    Run(s.offset, s.offset + |s.coordinates|, FirstDepth(g, s), FirstDepth(g, s) + Depth(g, s.id))
  }

  lemma RunIs(task: CurtainTask, store: Store, k: nat)
    requires TaskValid(task) && Stored(task, store) && k < |task.ids|
    ensures RunsListed(BodyOf(task, store))
    ensures RunAt(BodyOf(task, store), k) == RunOf(task.volume.Gvt(), task.ids[k])
    ensures FirstDepth(task.volume.Gvt(), task.ids[k]) + Depth(task.volume.Gvt(), task.ids[k].id)
            <= task.volume.shapeCube[2]
  {
    RealExtent(task.volume.shapeCube[2], task.volume.shape[2], task.ids[k].id[2]);
  }

  lemma RunSize(g: Gvt, s: Single)
    requires Curtain(g) && |s.id| == 3
    ensures RunOf(g, s).Size() == SegmentSize(g, s)
  {
    SegmentRoom(|s.coordinates|, |s.coordinates|, Depth(g, s.id));
  }

  lemma {:induction false} RunStartIs(task: CurtainTask, store: Store, k: nat)
    requires TaskValid(task) && Stored(task, store) && k <= |task.ids|
    ensures RunsListed(BodyOf(task, store))
    ensures RunStart(BodyOf(task, store), k) == Start(task.volume.Gvt(), task.ids, k)
  {
    if k > 0 {
      RunStartIs(task, store, k - 1);
      RunIs(task, store, k - 1);
      RunSize(task.volume.Gvt(), task.ids[k - 1]);
    }
  }

  /** Trace m of a run, in terms of where the run starts, and of what is there. */
  lemma TraceFrom(b: CurtainBody, run: Run, src: nat, m: nat, d: nat, at: nat, from: nat, part: seq<Sample>)
    requires run.Depth() == d && at == (run.ifst + m) * b.zlength + run.zfst
    requires from == src + m * d && from + d <= |b.values| && b.values[from..from + d] == part
    ensures TraceReads(b, run, src, m) && TraceWrites(b, run, src, m) == Chunk(at, part, 0, d)
    ensures TraceEnd(b, run, m) == at + d
  {
    assert d * m == m * d;
    SameChunk(at, b.values, from, part, d);
  }

  lemma TraceWritesIs(b: CurtainBody, g: Gvt, s: Single, chunk: seq<Sample>, start: nat, m: nat)
    requires Curtain(g) && SingleValid(g, s) && |chunk| == Prod(g.frag) && m < |s.coordinates|
    requires b.zlength == g.cube[2] && TraceInValues(g, s, chunk, b.values, start, m)
    ensures TraceReads(b, RunOf(g, s), start, m)
    ensures TraceWrites(b, RunOf(g, s), start, m) == TracePiece(g, s, chunk, m)
    ensures TraceEnd(b, RunOf(g, s), m) == (s.offset + m) * g.cube[2] + FirstDepth(g, s) + Depth(g, s.id)
  {
    MulMono(0, s.offset + m, g.cube[2]);
    TraceFrom(b, RunOf(g, s), start, m, Depth(g, s.id), (s.offset + m) * g.cube[2] + FirstDepth(g, s),
      start + m * Depth(g, s.id), TraceOf(g, s, chunk, m));
  }

  lemma RunWritesIs(task: CurtainTask, store: Store, k: nat)
    requires TaskValid(task) && Stored(task, store) && k < |task.ids|
    ensures var b, g, s := BodyOf(task, store), task.volume.Gvt(), task.ids[k];
            RunsListed(b) && RunReads(b, k) && RunWrites(b, k) == SinglePiece(g, s, store[s.id])
  {
    var b, g, s := BodyOf(task, store), task.volume.Gvt(), task.ids[k];
    RunIs(task, store, k);
    RunStartIs(task, store, k);
    forall m | 0 <= m < |s.coordinates|
      ensures TraceReads(b, RunAt(b, k), RunStart(b, k), m)
      ensures TraceWrites(b, RunAt(b, k), RunStart(b, k), m) == TracePiece(g, s, store[s.id], m)
    {
      ValuesTrace(task, store, k, m);
      TraceWritesIs(b, g, s, store[s.id], Start(g, task.ids, k), m);
    }
    assert Traces(b, k, |s.coordinates|) == TracePieces(g, s, store[s.id]);
  }

  /** The decoder, given the bundle of a task, writes the cells of the task's fragments. */
  lemma BundleWrites(task: CurtainTask, store: Store)
    requires TaskValid(task) && Stored(task, store)
    ensures BodyReads(BodyOf(task, store))
    ensures CurtainWrites(BodyOf(task, store)) == Flatten(SinglePieces(task, store))
  {
    var b := BodyOf(task, store);
    forall n: nat | n < b.size
      ensures RunsListed(b) && RunReads(b, n)
      ensures RunWrites(b, n) == SinglePieces(task, store)[n]
    {
      RunWritesIs(task, store, n);
    }
    RunStartIs(task, store, 0);
    assert RunPieces(b, |task.ids|) == SinglePieces(task, store);
  }

  /** A bundle whose rows are rows of the output stays inside it. */
  lemma BundleFits(task: CurtainTask, store: Store, rows: nat)
    requires TaskValid(task) && Stored(task, store)
    requires forall k :: 0 <= k < |task.ids| ==> LastRow(task.ids[k]) <= rows
    requires rows * task.volume.shapeCube[2] <= INT_MAX
    ensures 0 <= rows * task.volume.shapeCube[2]
    ensures BodyFits(BodyOf(task, store), rows * task.volume.shapeCube[2])
  {
    var b := BodyOf(task, store);
    BundleWrites(task, store);
    MulMono(0, rows, task.volume.shapeCube[2]);
    forall k: nat | k < b.size
      ensures RunFits(b, k, rows * task.volume.shapeCube[2])
    {
      RunFitsIn(task, store, rows, k);
    }
  }

  lemma RunFitsIn(task: CurtainTask, store: Store, rows: nat, k: nat)
    requires TaskValid(task) && Stored(task, store) && k < |task.ids|
    requires task.ids[k].offset + |task.ids[k].coordinates| <= rows
    requires 0 <= rows * task.volume.shapeCube[2] <= INT_MAX
    ensures RunsListed(BodyOf(task, store))
    ensures RunFits(BodyOf(task, store), k, rows * task.volume.shapeCube[2])
  {
    var b, g, s := BodyOf(task, store), task.volume.Gvt(), task.ids[k];
    RunIs(task, store, k);
    RunWritesIs(task, store, k);
    forall m | 0 <= m < |s.coordinates|
      ensures TraceFits(b, RunAt(b, k), m, rows * g.cube[2])
    {
      RowEndsIn(s.offset + m, rows, g.cube[2], FirstDepth(g, s) + Depth(g, s.id));
    }
  }

  lemma RowEndsIn(r: nat, rows: nat, n: nat, end: nat)
    requires r < rows && end <= n
    ensures r * n + end <= rows * n
  {
    MulMono(r + 1, rows, n);
    MulDistrib(r, 1, n);
  }
}
