/**
 * The curtain process of core/src/process.cpp: cut traces out of every fragment
 * of a task, and lay them out with a table of prefix sums.
 */
module CurtainWorker {
  import opened Arith
  import opened Lists
  import opened Shapes
  import opened Geometry
  import opened Strides
  import opened Cells
  import opened Messages
  import opened CurtainPlan

  predicate SingleValid(g: Gvt, s: Single)
    requires Curtain(g)
  {
    && InShape(s.id, g.Counts())
    && forall m :: 0 <= m < |s.coordinates| ==> s.coordinates[m].0 < g.frag[0] && s.coordinates[m].1 < g.frag[1]
  }

  /**
   * The fragments are in the grid, and what the code keeps in an int fits: a
   * fragment, the depth, the rows, and all values of the bundle.
   */
  predicate TaskValid(task: CurtainTask) {
    var g := task.volume.Gvt();
    && Curtain(g) && Prod(g.frag) <= INT_MAX && g.cube[2] <= INT_MAX && |task.ids| <= INT_MAX
    && (forall k :: 0 <= k < |task.ids| ==> SingleValid(g, task.ids[k]) && LastRow(task.ids[k]) <= INT_MAX)
    && Start(g, task.ids, |task.ids|) <= INT_MAX
  }

  /** The row after the last one that a fragment delivers. */
  function LastRow(s: Single): nat {
    s.offset + |s.coordinates|
  }

  /** The samples of a trace that a fragment holds, without padding. */
  function Depth(g: Gvt, id: Tuple): (r: nat)
    requires Curtain(g) && |id| == 3
    ensures r <= g.frag[2]
  {
    g.frag[2] - g.Padding(id, 2)
  }

  function TraceStart(g: Gvt, c: (nat, nat)): nat
    requires Curtain(g)
  {
    Offset([c.0, c.1, 0], g.frag)
  }

  lemma TraceInChunk(g: Gvt, c: (nat, nat), z: nat)
    requires Curtain(g) && c.0 < g.frag[0] && c.1 < g.frag[1] && z <= g.frag[2]
    ensures TraceStart(g, c) + z <= Prod(g.frag)
    ensures TraceStart(g, c) + z == Offset([c.0, c.1, z], g.frag)
  {
    Row3(c.0, c.1, 0, g.frag);
    Row3(c.0, c.1, z, g.frag);
    Row3(c.0, c.1, g.frag[2] - 1, g.frag);
  }

  function TraceOf(g: Gvt, s: Single, chunk: seq<Sample>, m: nat): (r: seq<Sample>)
    requires Curtain(g) && SingleValid(g, s) && |chunk| == Prod(g.frag) && m < |s.coordinates|
    ensures |r| == Depth(g, s.id)
  {
    TraceInChunk(g, s.coordinates[m], Depth(g, s.id));
    chunk[TraceStart(g, s.coordinates[m])..][..Depth(g, s.id)]
  }

  /** The first n traces of a fragment, back to back. */
  function Segment(g: Gvt, s: Single, chunk: seq<Sample>, n: nat): (r: seq<Sample>)
    requires Curtain(g) && SingleValid(g, s) && |chunk| == Prod(g.frag) && n <= |s.coordinates|
    ensures |r| == n * Depth(g, s.id)
  {
    if n == 0 then [] else
      MulDistrib(n - 1, 1, Depth(g, s.id));
      Segment(g, s, chunk, n - 1) + TraceOf(g, s, chunk, n - 1)
  }

  function SegmentSize(g: Gvt, s: Single): nat
    requires Curtain(g) && |s.id| == 3
  {
    MulMono(0, |s.coordinates|, Depth(g, s.id));
    |s.coordinates| * Depth(g, s.id)
  }

  /** The prefix sums of the segment sizes: where the output of fragment k starts. */
  function Start(g: Gvt, ids: seq<Single>, k: nat): nat
    requires Curtain(g) && k <= |ids| && forall i :: 0 <= i < |ids| ==> |ids[i].id| == 3
  {
    if k == 0 then 0 else Start(g, ids, k - 1) + SegmentSize(g, ids[k - 1])
  }

  lemma {:induction false} StartMono(g: Gvt, ids: seq<Single>, j: nat, k: nat)
    requires Curtain(g) && j <= k <= |ids| && forall i :: 0 <= i < |ids| ==> |ids[i].id| == 3
    ensures Start(g, ids, j) <= Start(g, ids, k)
  {
    if j < k {
      StartMono(g, ids, j, k - 1);
    }
  }

  predicate Stored(task: CurtainTask, store: Store) {
    forall k :: 0 <= k < |task.ids| ==>
      task.ids[k].id in store && |store[task.ids[k].id]| == Prod(task.volume.shape)
  }

  /** What every fragment adds to the values. */
  function Segments(task: CurtainTask, store: Store): (r: seq<seq<Sample>>)
    requires TaskValid(task) && Stored(task, store)
    ensures |r| == |task.ids|
  {
    seq(|task.ids|, k requires 0 <= k < |task.ids| =>
      Segment(task.volume.Gvt(), task.ids[k], store[task.ids[k].id], |task.ids[k].coordinates|))
  }

  /** The prefix sums are where the segments start. */
  lemma {:induction false} StartIs(task: CurtainTask, store: Store, k: nat)
    requires TaskValid(task) && Stored(task, store) && k <= |task.ids|
    ensures |FlattenTo(Segments(task, store), k)| == Start(task.volume.Gvt(), task.ids, k)
  {
    if k > 0 {
      StartIs(task, store, k - 1);
      SegmentRoom(|task.ids[k - 1].coordinates|, |task.ids[k - 1].coordinates|,
        Depth(task.volume.Gvt(), task.ids[k - 1].id));
    }
  }

  /** The rows a fragment delivers, as a [first, last) pair. */
  function Major(ids: seq<Single>, n: nat): (r: seq<int>)
    requires n <= |ids|
    ensures |r| == 2 * n
    ensures forall k :: 0 <= k < n ==> r[2 * k] == ids[k].offset && r[2 * k + 1] == ids[k].offset + |ids[k].coordinates|
  {
    if n == 0 then [] else
      Major(ids, n - 1) + [ids[n - 1].offset, ids[n - 1].offset + |ids[n - 1].coordinates|]
  }

  function FirstDepth(g: Gvt, s: Single): nat
    requires Curtain(g) && |s.id| == 3
  {
    MulMono(0, s.id[2], g.frag[2]);
    s.id[2] * g.frag[2]
  }

  /** The depths a fragment delivers, as a [first, last) pair. */
  function Minor(g: Gvt, ids: seq<Single>, n: nat): (r: seq<int>)
    requires Curtain(g) && n <= |ids| && forall i :: 0 <= i < |ids| ==> |ids[i].id| == 3
    ensures |r| == 2 * n
    ensures forall k :: 0 <= k < n ==> r[2 * k] == FirstDepth(g, ids[k])
                                       && r[2 * k + 1] == Min(FirstDepth(g, ids[k]) + g.frag[2], g.cube[2])
  {
    if n == 0 then [] else
      Minor(g, ids, n - 1) + [FirstDepth(g, ids[n - 1]), Min(FirstDepth(g, ids[n - 1]) + g.frag[2], g.cube[2])]
  }

  /** The body of a bundle with the given values. */
  function BodyWith(task: CurtainTask, values: seq<Sample>): CurtainBody
    requires TaskValid(task)
  {
    var g, ids := task.volume.Gvt(), task.ids;
    CurtainBody(|ids|, g.cube[2], Major(ids, |ids|), Minor(g, ids, |ids|), values)
  }

  /** The body of the bundle of a task: the segments of all fragments, back to back. */
  function BodyOf(task: CurtainTask, store: Store): CurtainBody
    requires TaskValid(task) && Stored(task, store)
  {
    BodyWith(task, Flatten(Segments(task, store)))
  }

  function BundleOf(task: CurtainTask, store: Store): Object
    requires TaskValid(task) && Stored(task, store)
  {
    CurtainBundle(task.volume.attribute, Some(BodyOf(task, store)))
  }

  /** add(): the traces of fragment k go to its own segment of the values. */
  function AddTo(task: CurtainTask, values: seq<Sample>, k: nat, chunk: seq<Sample>): (r: seq<Sample>)
    requires TaskValid(task) && k < |task.ids| && |chunk| == Prod(task.volume.shape)
    requires |values| == Start(task.volume.Gvt(), task.ids, |task.ids|)
    ensures |r| == |values|
  {
    SegmentFits(task, k);
    Splice(values, Start(task.volume.Gvt(), task.ids, k),
      Segment(task.volume.Gvt(), task.ids[k], chunk, |task.ids[k].coordinates|))
  }

  lemma SegmentFits(task: CurtainTask, k: nat)
    requires TaskValid(task) && k < |task.ids|
    ensures var g, s := task.volume.Gvt(), task.ids[k];
            Start(g, task.ids, k) + |s.coordinates| * Depth(g, s.id) <= Start(g, task.ids, |task.ids|)
  {
    StartMono(task.volume.Gvt(), task.ids, k + 1, |task.ids|);
  }

  /** The values after the first n fragments that arrive are added. */
  function ValuesAfter(task: CurtainTask, store: Store, arrival: seq<nat>, n: nat): (r: seq<Sample>)
    requires TaskValid(task) && Stored(task, store) && n <= |arrival|
    requires forall i :: 0 <= i < |arrival| ==> arrival[i] < |task.ids|
    ensures |r| == Start(task.volume.Gvt(), task.ids, |task.ids|)
  {
    if n == 0 then ZeroSamples(Start(task.volume.Gvt(), task.ids, |task.ids|))
    else AddTo(task, ValuesAfter(task, store, arrival, n - 1), arrival[n - 1], store[task.ids[arrival[n - 1]].id])
  }

  /** What is packed after the given fragments are added, in that order. */
  function PackedAfter(task: CurtainTask, store: Store, arrival: seq<nat>): Object
    requires TaskValid(task) && Stored(task, store)
    requires forall i :: 0 <= i < |arrival| ==> arrival[i] < |task.ids|
  {
    CurtainBundle(task.volume.attribute, Some(BodyWith(task, ValuesAfter(task, store, arrival, |arrival|))))
  }

  lemma AddScatters(task: CurtainTask, store: Store, values: seq<Sample>, k: nat)
    requires TaskValid(task) && Stored(task, store) && k < |task.ids|
    requires |values| == Start(task.volume.Gvt(), task.ids, |task.ids|)
    ensures var at, part := |FlattenTo(Segments(task, store), k)|, Segments(task, store)[k];
            && at + |part| <= |values|
            && AddTo(task, values, k, store[task.ids[k].id]) == Splice(values, at, part)
  {
    StartIs(task, store, k);
    SegmentFits(task, k);
  }

  lemma ScatterStep(task: CurtainTask, store: Store, arrival: seq<nat>, n: nat)
    requires TaskValid(task) && Stored(task, store) && n < |arrival|
    requires forall i :: 0 <= i < |arrival| ==> arrival[i] < |task.ids|
    requires ValuesAfter(task, store, arrival, n) == Scattered(Segments(task, store), arrival, n)
    ensures ValuesAfter(task, store, arrival, n + 1) == Scattered(Segments(task, store), arrival, n + 1)
  {
    AddScatters(task, store, ValuesAfter(task, store, arrival, n), arrival[n]);
  }

  lemma {:induction false} AddsScatter(task: CurtainTask, store: Store, arrival: seq<nat>, n: nat)
    requires TaskValid(task) && Stored(task, store) && n <= |arrival|
    requires forall i :: 0 <= i < |arrival| ==> arrival[i] < |task.ids|
    ensures ValuesAfter(task, store, arrival, n) == Scattered(Segments(task, store), arrival, n)
  {
    if n == 0 {
      StartIs(task, store, |task.ids|);
    } else {
      AddsScatter(task, store, arrival, n - 1);
      ScatterStep(task, store, arrival, n - 1);
    }
  }

  /** Once every fragment is added, the order, and how often it was added, makes no difference. */
  lemma PackedWhole(task: CurtainTask, store: Store, arrival: seq<nat>)
    requires TaskValid(task) && Stored(task, store)
    requires forall i :: 0 <= i < |arrival| ==> arrival[i] < |task.ids|
    requires forall k :: 0 <= k < |task.ids| ==> k in arrival
    ensures PackedAfter(task, store, arrival) == BundleOf(task, store)
  {
    AddsScatter(task, store, arrival, |arrival|);
    AllArrived(Segments(task, store), arrival);
  }

  class CurtainProc {
    const input: CurtainTask
    const traceindex: seq<nat>
    const size: nat
    const zlength: nat
    const major: seq<int>
    const minor: seq<int>
    const values: array<Sample>

    ghost predicate Valid() {
      && TaskValid(input)
      && |traceindex| == |input.ids| + 1
      && (forall k :: 0 <= k <= |input.ids| ==> traceindex[k] == Start(input.volume.Gvt(), input.ids, k))
      && values.Length == Start(input.volume.Gvt(), input.ids, |input.ids|)
      && size == |input.ids| && zlength == input.volume.Gvt().cube[2]
      && major == Major(input.ids, |input.ids|)
      && minor == Minor(input.volume.Gvt(), input.ids, |input.ids|)
    }

    /** init(), on the fresh object that every request gets. */
    constructor (task: CurtainTask)
      requires TaskValid(task)
      ensures Valid() && input == task && fresh(values)
      ensures values[..] == ZeroSamples(Start(task.volume.Gvt(), task.ids, |task.ids|))
    {
      input := task;
      size, zlength := ToInt(|task.ids|), ToInt(task.volume.Gvt().cube[2]);
      var index := TraceIndex(task);
      traceindex := index;
      values := new Sample[index[|task.ids|]](_ => 0);
      var rows, depths := Extents(task);
      major, minor := rows, depths;
    }

    method Add(key: nat, chunk: seq<Sample>)
      requires Valid() && key < |input.ids| && |chunk| == Prod(input.volume.shape)
      modifies values
      ensures values[..] == AddTo(input, old(values[..]), key, chunk)
    {
      var g, s := input.volume.Gvt(), input.ids[key];
      var zheight := g.frag[2] - g.Padding(s.id, 2);
      SegmentRoom(|s.coordinates|, |s.coordinates|, zheight);
      StartMono(g, input.ids, key + 1, |input.ids|);
      CopyTraces(values, traceindex[key], g, s, chunk, zheight);
    }

    method Pack() returns (bundle: Object)
      requires Valid()
      ensures bundle == CurtainBundle(input.volume.attribute, Some(BodyWith(input, values[..])))
    {
      bundle := CurtainBundle(input.volume.attribute, Some(CurtainBody(size, zlength, major, minor, values[..])));
    }
  }

  lemma SegmentRoom(m: nat, n: nat, d: nat)
    requires m <= n
    ensures 0 <= m * d <= n * d
    ensures m < n ==> m * d + d == (m + 1) * d <= n * d
    ensures n * d == d * n
  {
    MulMono(m, n, d);
    MulDistrib(m, 1, d);
    if m < n {
      MulMono(m + 1, n, d);
    }
  }

  /** The copy loop of curtain::add. */
  method CopyTraces(values: array<Sample>, start: nat, g: Gvt, s: Single, chunk: seq<Sample>, zheight: nat)
    requires Curtain(g) && SingleValid(g, s) && |chunk| == Prod(g.frag) <= INT_MAX && zheight == Depth(g, s.id)
    requires start + |s.coordinates| * zheight <= values.Length
    modifies values
    ensures values[..] == Splice(old(values[..]), start, Segment(g, s, chunk, |s.coordinates|))
  {
    var dst := start;
    ghost var before := values[..];
    for m := 0 to |s.coordinates|
      invariant dst == start + m * zheight <= values.Length
      invariant values[..] == Splice(before, start, Segment(g, s, chunk, m))
    {
      SegmentRoom(m, |s.coordinates|, zheight);
      SpliceMore(before, start, Segment(g, s, chunk, m), TraceOf(g, s, chunk, m));
      CopyTrace(values, dst, g, s, chunk, m);
      dst := dst + zheight;
    }
  }

  /** One memcpy of it. */
  method CopyTrace(values: array<Sample>, dst: nat, g: Gvt, s: Single, chunk: seq<Sample>, m: nat)
    requires Curtain(g) && SingleValid(g, s) && |chunk| == Prod(g.frag) <= INT_MAX && m < |s.coordinates|
    requires dst + Depth(g, s.id) <= values.Length
    modifies values
    ensures values[..] == Splice(old(values[..]), dst, TraceOf(g, s, chunk, m))
  {
    TraceInChunk(g, s.coordinates[m], Depth(g, s.id));
    var off := GetOffset([s.coordinates[m].0, s.coordinates[m].1, 0], g.frag);
    ghost var before := values[..];
    Memcpy(values, dst, chunk, off, g.frag[2] - g.Padding(s.id, 2));
    assert chunk[off..off + Depth(g, s.id)] == TraceOf(g, s, chunk, m);
    assert values[..] == Splice(before, dst, TraceOf(g, s, chunk, m));
  }

  lemma SpliceMore(buf: seq<Sample>, at: nat, part: seq<Sample>, more: seq<Sample>)
    requires at + |part| + |more| <= |buf|
    ensures Splice(Splice(buf, at, part), at + |part|, more) == Splice(buf, at, part + more)
  {}

  /** t[0] + ... + t[k] */
  function Sum(t: seq<nat>, k: nat): nat
    requires k < |t|
  {
    if k == 0 then t[0] else Sum(t, k - 1) + t[k]
  }

  /** std::partial_sum with the input as its output, over ints. */
  method PartialSum(t: seq<nat>) returns (r: seq<nat>)
    requires |t| > 0 && forall k :: 0 <= k < |t| ==> Sum(t, k) <= INT_MAX
    ensures |r| == |t|
    ensures forall k :: 0 <= k < |t| ==> r[k] == Sum(t, k)
  {
    r := t;
    for k := 1 to |t|
      invariant |r| == |t|
      invariant forall i :: 0 <= i < k ==> r[i] == Sum(t, i)
      invariant forall i :: k <= i < |t| ==> r[i] == t[i]
    {
      assert r[k - 1] + r[k] == Sum(t, k);
      r := r[k := ToInt(r[k - 1] + r[k])];
    }
  }

  lemma {:induction false} SumIsStart(g: Gvt, ids: seq<Single>, t: seq<nat>, k: nat)
    requires Curtain(g) && k <= |ids| && forall i :: 0 <= i < |ids| ==> |ids[i].id| == 3
    requires |t| == |ids| + 1 && t[0] == 0
    requires forall i :: 0 <= i < |ids| ==> t[i + 1] == SegmentSize(g, ids[i])
    ensures Sum(t, k) == Start(g, ids, k)
  {
    if k > 0 {
      SumIsStart(g, ids, t, k - 1);
      assert t[k - 1 + 1] == SegmentSize(g, ids[k - 1]);
    }
  }

  /** The sizes of all segments, then their partial sums. */
  method TraceIndex(task: CurtainTask) returns (t: seq<nat>)
    requires TaskValid(task)
    ensures |t| == |task.ids| + 1
    ensures forall k :: 0 <= k <= |task.ids| ==> t[k] == Start(task.volume.Gvt(), task.ids, k)
  {
    var g, ids := task.volume.Gvt(), task.ids;
    t := [0];
    for k := 0 to |ids|
      invariant |t| == k + 1 && t[0] == 0
      invariant forall i :: 0 <= i < k ==> t[i + 1] == SegmentSize(g, ids[i])
    {
      var zreal := g.frag[2] - g.Padding(ids[k].id, 2);
      SegmentRoom(0, |ids[k].coordinates|, zreal);
      StartMono(g, ids, k + 1, |ids|);
      t := t + [ToInt(zreal * |ids[k].coordinates|)];
    }
    forall k | 0 <= k <= |ids|
      ensures Sum(t, k) == Start(g, ids, k) <= INT_MAX
    {
      SumIsStart(g, ids, t, k);
      StartMono(g, ids, k, |ids|);
    }
    t := PartialSum(t);
  }

  /** The row and depth ranges of a fragment, as ints. */
  method Extent(g: Gvt, s: Single) returns (ifst: int, ilst: int, zfst: int, zlst: int)
    requires Curtain(g) && SingleValid(g, s) && g.cube[2] <= INT_MAX && LastRow(s) <= INT_MAX
    ensures ifst == s.offset && ilst == LastRow(s)
    ensures zfst == FirstDepth(g, s) && zlst == Min(FirstDepth(g, s) + g.frag[2], g.cube[2])
  {
    RealExtent(g.cube[2], g.frag[2], s.id[2]);
    MulMono(0, s.id[2], g.frag[2]);
    ifst, ilst := ToInt(s.offset), ToInt(s.offset + |s.coordinates|);
    var z := s.id[2] * g.frag[2];
    zfst, zlst := ToInt(z), ToInt(Min(z + g.frag[2], g.cube[2]));
  }

  /** The row and depth ranges of all fragments. */
  method Extents(task: CurtainTask) returns (major: seq<int>, minor: seq<int>)
    requires TaskValid(task)
    ensures major == Major(task.ids, |task.ids|)
    ensures minor == Minor(task.volume.Gvt(), task.ids, |task.ids|)
  {
    var g, ids := task.volume.Gvt(), task.ids;
    major, minor := [], [];
    for k := 0 to |ids|
      invariant major == Major(ids, k)
      invariant minor == Minor(g, ids, k)
    {
      assert SingleValid(g, ids[k]) && LastRow(ids[k]) <= INT_MAX;
      var ifst, ilst, zfst, zlst := Extent(g, ids[k]);
      major := major + [ifst, ilst];
      minor := minor + [zfst, zlst];
    }
  }

  /** The loop of gather(): fragments are added in the order they arrive. */
  method AddAll(proc: CurtainProc, store: Store, arrival: seq<nat>)
    requires proc.Valid() && Stored(proc.input, store)
    requires forall i :: 0 <= i < |arrival| ==> arrival[i] < |proc.input.ids|
    requires proc.values[..] == ZeroSamples(proc.values.Length)
    modifies proc.values
    ensures proc.values[..] == ValuesAfter(proc.input, store, arrival, |arrival|)
  {
    for i := 0 to |arrival|
      invariant proc.values[..] == ValuesAfter(proc.input, store, arrival, i)
    {
      proc.Add(arrival[i], store[proc.input.ids[arrival[i]].id]);
    }
  }

  /** gather(): add what arrives, and pack the result. */
  method Gather(task: CurtainTask, store: Store, arrival: seq<nat>) returns (bundle: Object)
    requires TaskValid(task) && Stored(task, store)
    requires forall i :: 0 <= i < |arrival| ==> arrival[i] < |task.ids|
    ensures bundle == PackedAfter(task, store, arrival)
  {
    var proc := new CurtainProc(task);
    AddAll(proc, store, arrival);
    bundle := proc.Pack();
  }
}
