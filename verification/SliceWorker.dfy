/** The slice process of core/src/process.cpp: cut a plane out of every fragment of a task. */
module SliceWorker {
  import opened Arith
  import opened Shapes
  import opened Geometry
  import opened Strides
  import opened Cells
  import opened Messages

  /** The point p with the value x put in at slot d. */
  function Insert(p: Tuple, d: nat, x: nat): (r: Tuple)
    requires d <= |p|
    ensures |r| == |p| + 1
  {
    p[..d] + [x] + p[d..]
  }

  lemma SqueezeInsert(p: Tuple, d: nat, x: nat)
    requires d <= |p|
    ensures Squeeze(Insert(p, d, x), d) == p
    ensures Insert(p, d, x)[d] == x
  {}

  lemma SqueezePositive(s: Tuple, d: nat)
    requires d < |s| && Positive(s)
    ensures Positive(Squeeze(s, d))
  {}

  lemma InsertInShape(q: Tuple, s: Tuple, d: nat, x: nat)
    requires d < |s| && InShape(q, Squeeze(s, d)) && x < s[d]
    ensures InShape(Insert(q, d, x), s)
    ensures Offset(Insert(q, d, x), s) < Prod(s)
  {
    var p := Insert(q, d, x);
    forall i | 0 <= i < |s|
      ensures p[i] < s[i]
    {
      if i < d {
        assert p[i] == q[i] && Squeeze(s, d)[i] == s[i];
      } else if i > d {
        assert p[i] == q[i - 1] && Squeeze(s, d)[i - 1] == s[i];
      }
    }
    OffsetBound(p, s);
  }

  /** A plane has no more samples than the fragment. */
  lemma SqueezeProd(s: Tuple, d: nat)
    requires d < |s| && Positive(s)
    ensures Prod(Squeeze(s, d)) <= Prod(s)
  {
    ProdConcat(s[..d], s[d + 1..]);
    ProdConcat(s[..d], s[d..]);
    SuffixProd(s, d);
    assert s == s[..d] + s[d..];
    WithFactor(Prod(s[..d]), Prod(s[d + 1..]), s[d], Prod(s[d..]));
  }

  lemma WithFactor(a: nat, b: nat, c: nat, cb: nat)
    requires c > 0 && cb == c * b
    ensures a * b <= a * cb
  {
    MulMono(1, c, b);
    MulMono(b, cb, a);
  }

  /** The fragment sample that the o-th sample of plane idx of slot d is. */
  function PlaneSample(fs: Tuple, d: nat, idx: nat, o: nat): (r: nat)
    requires d < |fs| && Positive(fs) && idx < fs[d] && o < Prod(Squeeze(fs, d))
    ensures r < Prod(fs)
  {
    SqueezePositive(fs, d);
    OffsetSurjective(o, Squeeze(fs, d));
    InsertInShape(PointAt(o, Squeeze(fs, d)), fs, d, idx);
    Offset(Insert(PointAt(o, Squeeze(fs, d)), d, idx), fs)
  }

  /** The plane idx of slot d in a fragment of shape fs, row-major in the remaining slots. */
  function PlaneOf(chunk: seq<Sample>, fs: Tuple, d: nat, idx: nat): (r: seq<Sample>)
    requires d < |fs| && Positive(fs) && |chunk| == Prod(fs) && idx < fs[d]
    ensures |r| == Prod(Squeeze(fs, d))
  {
    seq(Prod(Squeeze(fs, d)), o requires 0 <= o < Prod(Squeeze(fs, d)) => chunk[PlaneSample(fs, d, idx, o)])
  }

  /** A point in row i, at position j, of the squeezed shape sits in block i of the fragment. */
  lemma PlaneRow(p: Tuple, fs: Tuple, d: nat, i: nat, j: nat, c: nat)
    requires d < |fs| && InShape(p, fs) && c == Prod(fs[d + 1..]) && j < c
    requires Offset(Squeeze(p, d), Squeeze(fs, d)) == i * c + j
    ensures Offset(p, fs) == c * p[d] + i * Prod(fs[d..]) + j
  {
    var f, t := Offset(p[..d], fs[..d]), Offset(p[d + 1..], fs[d + 1..]);
    assert InShape(p[d + 1..], fs[d + 1..]);
    OffsetBound(p[d + 1..], fs[d + 1..]);
    OffsetSqueezed(p, fs, d);
    RowMajorUnique(i, j, f, t, c);
    PlaneBlock(p, fs, d, i, j, c);
  }

  lemma PlaneBlock(p: Tuple, fs: Tuple, d: nat, i: nat, j: nat, c: nat)
    requires |p| == |fs| && d < |fs| && c == Prod(fs[d + 1..])
    requires Offset(p[..d], fs[..d]) == i && Offset(p[d + 1..], fs[d + 1..]) == j
    ensures Offset(p, fs) == c * p[d] + i * Prod(fs[d..]) + j
  {
    OffsetParts(p, fs, d);
    OffsetTail(p, fs, d);
  }

  /** Where the layout of slice_stride reads sample j of chunk i, which starts at from. */
  lemma PlaneSampleAt(fs: Tuple, d: nat, idx: nat, i: nat, j: nat, o: nat, from: nat)
    requires d < |fs| && Positive(fs) && idx < fs[d] && j < Prod(fs[d + 1..])
    requires o == i * Prod(fs[d + 1..]) + j && o < Prod(Squeeze(fs, d))
    requires from == Prod(fs[d + 1..]) * idx + i * Prod(fs[d..])
    ensures PlaneSample(fs, d, idx, o) == from + j
  {
    SqueezePositive(fs, d);
    OffsetSurjective(o, Squeeze(fs, d));
    var q := PointAt(o, Squeeze(fs, d));
    SqueezeInsert(q, d, idx);
    InsertInShape(q, fs, d, idx);
    PlaneRow(Insert(q, d, idx), fs, d, i, j, Prod(fs[d + 1..]));
  }

  /** What add() leaves in the output for one fragment. */
  function TileOf(task: SliceTask, fid: Tuple, chunk: seq<Sample>): Tile
    requires TaskValid(task) && InShape(fid, task.volume.Gvt().Counts()) && |chunk| == Prod(task.volume.shape)
  {
    var g, d := task.volume.Gvt(), task.dim;
    SqueezedValid(g, d);
    var s := InjectionLayout(g.SqueezeDim(d), Squeeze(fid, d));
    Tile(s.iterations, s.chunkSize, s.initialSkip, s.superstride, s.substride,
         PlaneOf(chunk, task.volume.shape, d, task.idx))
  }

  lemma SqueezedValid(g: Gvt, d: nat)
    requires g.Valid() && |g.cube| > 1 && d < |g.cube|
    ensures g.SqueezeDim(d).Valid()
    ensures g.SqueezeDim(d).Counts() == Squeeze(g.Counts(), d)
  {}

  lemma SqueezedInShape(p: Tuple, s: Tuple, d: nat)
    requires InShape(p, s) && d < |s|
    ensures InShape(Squeeze(p, d), Squeeze(s, d))
  {}

  /** Shapes are positive, the plane cuts the fragments, and plane and fragment fit in an int. */
  predicate TaskValid(task: SliceTask) {
    var g := task.volume.Gvt();
    && g.Valid() && |g.cube| == 3 && task.dim < 3 && task.idx < g.frag[task.dim]
    && Prod(g.frag) <= INT_MAX && Prod(Squeeze(g.cube, task.dim)) <= INT_MAX
    && forall k :: 0 <= k < |task.ids| ==> InShape(task.ids[k], g.Counts())
  }

  const EMPTY_TILE: Tile := Tile(0, 0, 0, 0, 0, [])

  class SliceProc {
    const input: SliceTask
    const layout: Layout
    const gvt: Gvt
    var tiles: seq<Tile>

    ghost predicate Valid()
      reads this
    {
      && TaskValid(input)
      && |tiles| == |input.ids|
      && layout == ExtractionLayout(input.volume.shape, input.dim)
      && gvt == input.volume.Gvt().SqueezeDim(input.dim)
    }

    constructor (task: SliceTask)
      requires TaskValid(task)
      ensures Valid() && input == task && tiles == seq(|task.ids|, _ => EMPTY_TILE)
    {
      input := task;
      tiles := seq(|task.ids|, _ => EMPTY_TILE);
      gvt := task.volume.Gvt().SqueezeDim(task.dim);
      var stride := SliceStride(task.volume.shape, task.dim);
      layout := stride;
    }

    method Add(key: nat, chunk: seq<Sample>)
      requires Valid() && key < |input.ids| && |chunk| == Prod(input.volume.shape)
      modifies this
      ensures Valid()
      ensures tiles == old(tiles)[key := TileOf(input, input.ids[key], chunk)]
    {
      var g, fs, d := input.volume.Gvt(), input.volume.shape, input.dim;
      SqueezedValid(g, d);
      SqueezePositive(fs, d);
      SqueezedInShape(input.ids[key], g.Counts(), d);
      var t := InjectionStride(gvt, Squeeze(input.ids[key], d));
      var v := ExtractPlane(chunk, fs, d, input.idx, layout);
      tiles := tiles[key := Tile(t.iterations, t.chunkSize, t.initialSkip, t.superstride, t.substride, v)];
    }

    method Pack() returns (bundle: Object)
      requires Valid()
      ensures bundle == SliceBundle(input.volume.attribute, Some(tiles))
    {
      bundle := SliceBundle(input.volume.attribute, Some(tiles));
    }
  }

  lemma ExtractionInBounds(fs: Tuple, d: nat, i: nat, c: nat, n: nat)
    requires d < |fs| && c == Prod(fs[d + 1..]) && n == Prod(fs[..d])
    ensures Prod(Squeeze(fs, d)) == n * c
    ensures i < n ==> i * c + c <= n * c
  {
    ProdConcat(fs[..d], fs[d + 1..]);
    if i < n {
      MulMono(i + 1, n, c);
      MulDistrib(i, 1, c);
    }
  }

  lemma PlaneValue(chunk: seq<Sample>, fs: Tuple, d: nat, idx: nat, i: nat, to: nat, from: nat, k: nat)
    requires d < |fs| && Positive(fs) && |chunk| == Prod(fs) && idx < fs[d]
    requires to == i * Prod(fs[d + 1..]) && to <= k < to + Prod(fs[d + 1..]) && k < Prod(Squeeze(fs, d))
    requires from == Prod(fs[d + 1..]) * idx + i * Prod(fs[d..])
    ensures from + (k - to) < |chunk|
    ensures PlaneOf(chunk, fs, d, idx)[k] == chunk[from + (k - to)]
  {
    PlaneSampleAt(fs, d, idx, i, k - to, k, from);
  }

  /** One chunk of the copy loop is one run of the plane. */
  lemma PlaneRun(chunk: seq<Sample>, fs: Tuple, d: nat, idx: nat, i: nat, c: nat, to: nat, from: nat)
    requires d < |fs| && Positive(fs) && |chunk| == Prod(fs) && idx < fs[d]
    requires c == Prod(fs[d + 1..]) && to == i * c && to + c <= Prod(Squeeze(fs, d))
    requires from == c * idx + i * Prod(fs[d..])
    ensures from + c <= |chunk|
    ensures PlaneOf(chunk, fs, d, idx)[to..to + c] == chunk[from..from + c]
  {
    var plane := PlaneOf(chunk, fs, d, idx);
    ProdPositive(fs[d + 1..]);
    PlaneValue(chunk, fs, d, idx, i, to, from, to + c - 1);
    forall k | to <= k < to + c
      ensures plane[k] == chunk[from + (k - to)]
    {
      PlaneValue(chunk, fs, d, idx, i, to, from, k);
    }
    RunIsCopy(plane, chunk, to, from, c);
  }

  lemma RunIsCopy(plane: seq<Sample>, chunk: seq<Sample>, to: nat, from: nat, c: nat)
    requires to + c <= |plane| && from + c <= |chunk|
    requires forall k :: to <= k < to + c ==> plane[k] == chunk[from + (k - to)]
    ensures plane[to..to + c] == chunk[from..from + c]
  {}

  predicate ChunksFit(len: nat, from: nat, step: nat, c: nat, n: nat)
    decreases n
  {
    n == 0 || (from + c <= len && ChunksFit(len, from + step, step, c, n - 1))
  }

  /** n chunks of c samples, taken at equal steps, put back to back. */
  function Strided(src: seq<Sample>, from: nat, step: nat, c: nat, n: nat): (r: seq<Sample>)
    requires ChunksFit(|src|, from, step, c, n)
    decreases n
  {
    if n == 0 then [] else src[from..from + c] + Strided(src, from + step, step, c, n - 1)
  }

  /** One chunk, and then the rest of the plane. */
  lemma ChunkAndRest(plane: seq<Sample>, chunk: seq<Sample>, to: nat, from: nat, w: nat, c: nat, n: nat)
    requires n > 0 && to + c <= |plane| && from + c <= |chunk| && plane[to..to + c] == chunk[from..from + c]
    requires ChunksFit(|chunk|, from + w, w, c, n - 1) && Strided(chunk, from + w, w, c, n - 1) == plane[to + c..]
    ensures ChunksFit(|chunk|, from, w, c, n) && Strided(chunk, from, w, c, n) == plane[to..]
  {
    assert plane[to..] == plane[to..to + c] + plane[to + c..];
  }

  /** From chunk i on, the strides of slice_stride read the rest of the plane. */
  lemma {:induction false} StridedPlane(
    chunk: seq<Sample>, fs: Tuple, d: nat, idx: nat, i: nat, n: nat, c: nat, w: nat, to: nat, from: nat)
    requires d < |fs| && Positive(fs) && |chunk| == Prod(fs) && idx < fs[d]
    requires c == Prod(fs[d + 1..]) && n == Prod(fs[..d]) && w == Prod(fs[d..])
    requires i <= n && to == i * c && from == c * idx + i * w
    ensures to <= Prod(Squeeze(fs, d))
    ensures ChunksFit(|chunk|, from, w, c, n - i)
    ensures Strided(chunk, from, w, c, n - i) == PlaneOf(chunk, fs, d, idx)[to..]
    decreases n - i
  {
    ExtractionInBounds(fs, d, i, c, n);
    if i < n {
      NextChunk(c * idx, i, c, w);
      PlaneRun(chunk, fs, d, idx, i, c, to, from);
      StridedPlane(chunk, fs, d, idx, i + 1, n, c, w, to + c, from + w);
      ChunkAndRest(PlaneOf(chunk, fs, d, idx), chunk, to, from, w, c, n - i);
    }
  }

  lemma NextChunk(skip: int, i: int, c: int, w: int)
    ensures i * c + c == (i + 1) * c
    ensures skip + i * w + w == skip + (i + 1) * w
  {
    MulDistrib(i, 1, c);
    MulDistrib(i, 1, w);
  }

  lemma ChunkRoom(i: nat, n: nat, c: nat)
    requires i < n
    ensures i * c + c == (i + 1) * c <= n * c
  {
    MulMono(i + 1, n, c);
    MulDistrib(i, 1, c);
  }

  lemma StridedStep(done: seq<Sample>, src: seq<Sample>, from: nat, step: nat, c: nat, n: nat)
    requires n > 0 && ChunksFit(|src|, from, step, c, n)
    ensures done + Strided(src, from, step, c, n)
            == (done + src[from..from + c]) + Strided(src, from + step, step, c, n - 1)
  {}

  /** The copy loop of slice::add: equal steps in the fragment, back to back in the tile. */
  method CopyChunks(src: seq<Sample>, skip: nat, layout: Layout) returns (v: seq<Sample>)
    requires layout.substride == layout.chunkSize
    requires ChunksFit(|src|, skip, layout.superstride, layout.chunkSize, layout.iterations)
    ensures v == Strided(src, skip, layout.superstride, layout.chunkSize, layout.iterations)
  {
    var Layout(n, c, _, step, substride) := layout;
    MulMono(0, n, c);
    var buf := new Sample[n * c];
    var dst, from := 0, skip;
    ghost var all := Strided(src, skip, step, c, n);
    for i := 0 to n
      invariant dst == i * c <= buf.Length && 0 <= from
      invariant ChunksFit(|src|, from, step, c, n - i)
      invariant buf[..dst] + Strided(src, from, step, c, n - i) == all
    {
      ChunkRoom(i, n, c);
      StridedStep(buf[..dst], src, from, step, c, n - i);
      Memcpy(buf, dst, src, from, c);
      dst, from := dst + substride, from + step;
    }
    assert buf[..dst] == buf[..];
    v := buf[..];
  }

  /** The samples of the plane, taken out of a fragment. */
  method ExtractPlane(chunk: seq<Sample>, fs: Tuple, d: nat, idx: nat, layout: Layout) returns (v: seq<Sample>)
    requires d < |fs| && Positive(fs) && |chunk| == Prod(fs) && idx < fs[d] && layout == ExtractionLayout(fs, d)
    ensures v == PlaneOf(chunk, fs, d, idx)
  {
    var skip := layout.initialSkip * idx;
    StridedPlane(chunk, fs, d, idx, 0, layout.iterations, layout.chunkSize, layout.superstride, 0, skip);
    v := CopyChunks(chunk, skip, layout);
  }

  /** The bundle of a task: the tiles of its fragments, in the order of its ids. */
  function BundleOf(task: SliceTask, store: Store): Object
    requires TaskValid(task) && Stored(task, store)
  {
    SliceBundle(task.volume.attribute, Some(TilesOf(task, store)))
  }

  function TilesOf(task: SliceTask, store: Store): (r: seq<Tile>)
    requires TaskValid(task) && Stored(task, store)
    ensures |r| == |task.ids|
  {
    seq(|task.ids|, k requires 0 <= k < |task.ids| => TileOf(task, task.ids[k], store[task.ids[k]]))
  }

  predicate Stored(task: SliceTask, store: Store) {
    forall k :: 0 <= k < |task.ids| ==>
      task.ids[k] in store && |store[task.ids[k]]| == Prod(task.volume.shape)
  }

  /** The tiles after the first n fragments that arrive are added. */
  function TilesAfter(task: SliceTask, store: Store, arrival: seq<nat>, n: nat): (r: seq<Tile>)
    requires TaskValid(task) && Stored(task, store) && n <= |arrival|
    requires forall i :: 0 <= i < |arrival| ==> arrival[i] < |task.ids|
    ensures |r| == |task.ids|
  {
    if n == 0 then seq(|task.ids|, _ => EMPTY_TILE)
    else
      var k := arrival[n - 1];
      TilesAfter(task, store, arrival, n - 1)[k := TileOf(task, task.ids[k], store[task.ids[k]])]
  }

  /** What is packed after the given fragments are added, in that order. */
  function PackedAfter(task: SliceTask, store: Store, arrival: seq<nat>): Object
    requires TaskValid(task) && Stored(task, store)
    requires forall i :: 0 <= i < |arrival| ==> arrival[i] < |task.ids|
  {
    SliceBundle(task.volume.attribute, Some(TilesAfter(task, store, arrival, |arrival|)))
  }

  lemma {:induction false} ArrivedTile(task: SliceTask, store: Store, arrival: seq<nat>, n: nat, k: nat)
    requires TaskValid(task) && Stored(task, store) && n <= |arrival|
    requires forall i :: 0 <= i < |arrival| ==> arrival[i] < |task.ids|
    requires k < |task.ids| && k in arrival[..n]
    ensures TilesAfter(task, store, arrival, n)[k] == TileOf(task, task.ids[k], store[task.ids[k]])
  {
    assert arrival[..n] == arrival[..n - 1] + [arrival[n - 1]];
    if arrival[n - 1] != k {
      ArrivedTile(task, store, arrival, n - 1, k);
    }
  }

  /** Once every fragment is added, the order, and how often it was added, makes no difference. */
  lemma PackedWhole(task: SliceTask, store: Store, arrival: seq<nat>)
    requires TaskValid(task) && Stored(task, store)
    requires forall i :: 0 <= i < |arrival| ==> arrival[i] < |task.ids|
    requires forall k :: 0 <= k < |task.ids| ==> k in arrival
    ensures PackedAfter(task, store, arrival) == BundleOf(task, store)
  {
    var tiles := TilesAfter(task, store, arrival, |arrival|);
    assert arrival[..|arrival|] == arrival;
    forall k | 0 <= k < |task.ids|
      ensures tiles[k] == TilesOf(task, store)[k]
    {
      ArrivedTile(task, store, arrival, |arrival|, k);
    }
    assert tiles == TilesOf(task, store);
  }

  /** gather(): add what arrives, and pack the result. */
  method Gather(task: SliceTask, store: Store, arrival: seq<nat>) returns (bundle: Object)
    requires TaskValid(task) && Stored(task, store)
    requires forall i :: 0 <= i < |arrival| ==> arrival[i] < |task.ids|
    ensures bundle == PackedAfter(task, store, arrival)
  {
    var proc := new SliceProc(task);
    for i := 0 to |arrival|
      invariant proc.Valid() && proc.tiles == TilesAfter(task, store, arrival, i)
    {
      proc.Add(arrival[i], store[task.ids[arrival[i]]]);
    }
    bundle := proc.Pack();
  }
}
