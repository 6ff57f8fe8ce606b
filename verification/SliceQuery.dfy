/**
 * A slice from end to end, for one attribute: the tiles of the fragments cut
 * by the plane hold the plane, and cover it exactly.
 */
module SliceQuery {
  import opened Shapes
  import opened Geometry
  import opened Strides
  import opened Cells
  import opened Messages
  import opened Extraction
  import opened SliceWorker
  import opened PlaneCover

  /** The requested plane, row-major in the slots that are left. */
  function PlaneTarget(g: Gvt, d: nat, no: nat, cube: Cube): (r: seq<Sample>)
    requires g.Valid() && |g.cube| > 1 && d < |g.cube|
    ensures |r| == Prod(Squeeze(g.cube, d))
  {
    SqueezePositive(g.cube, d);
    seq(Prod(Squeeze(g.cube, d)), x requires 0 <= x < Prod(Squeeze(g.cube, d)) =>
      cube(Insert(PointAt(x, Squeeze(g.cube, d)), d, no)))
  }

  /** The value requested for a point of the plane. */
  lemma PlaneAt(g: Gvt, d: nat, no: nat, cube: Cube, p: Tuple)
    requires g.Valid() && |g.cube| > 1 && d < |g.cube| && InShape(p, g.cube) && p[d] == no
    ensures var o := Offset(Squeeze(p, d), Squeeze(g.cube, d));
            o < |PlaneTarget(g, d, no, cube)| && PlaneTarget(g, d, no, cube)[o] == cube(p)
  {
    SqueezePositive(g.cube, d);
    assert InShape(Squeeze(p, d), Squeeze(g.cube, d));
    OffsetBound(Squeeze(p, d), Squeeze(g.cube, d));
    PointOfOffset(Squeeze(p, d), Squeeze(g.cube, d));
    assert Insert(Squeeze(p, d), d, no) == p;
  }

  /** The local point of plane no in a fragment of the plane comes from the plane's cube point. */
  lemma InsertGlobal(g: Gvt, d: nat, no: nat, fid: Tuple, l: Tuple)
    requires g.Valid() && |g.cube| > 1 && d < |g.cube| && no < g.cube[d]
    requires InShape(fid, g.Counts()) && fid[d] == no / g.frag[d]
    requires var g2 := g.SqueezeDim(d); g2.Valid() && InShape(l, g2.RealShape(Squeeze(fid, d)))
    ensures 0 <= no % g.frag[d] < g.frag[d]
    ensures InShape(Insert(l, d, no % g.frag[d]), g.RealShape(fid))
    ensures g.Global(fid, Insert(l, d, no % g.frag[d]))
            == Insert(g.SqueezeDim(d).Global(Squeeze(fid, d), l), d, no)
  {
    GlobalToLocal(g.cube[d], g.frag[d], no);
    var p, g2 := Insert(l, d, no % g.frag[d]), g.SqueezeDim(d);
    forall i | 0 <= i < |g.cube|
      ensures p[i] < g.RealShape(fid)[i]
      ensures g.Global(fid, p)[i] == Insert(g2.Global(Squeeze(fid, d), l), d, no)[i]
    {
      if i != d {
        InsertedSlot(g, d, fid, l, i, if i < d then i else i - 1);
      }
    }
  }

  /** Slot i is slot j of the squeezed geometry. */
  lemma InsertedSlot(g: Gvt, d: nat, fid: Tuple, l: Tuple, i: nat, j: nat)
    requires g.Valid() && |g.cube| > 1 && d < |g.cube| && |fid| == |g.cube|
    requires i < |g.cube| && i != d && j == if i < d then i else i - 1
    requires var g2 := g.SqueezeDim(d); g2.Valid() && InShape(l, g2.RealShape(Squeeze(fid, d)))
    ensures l[j] < g.RealShape(fid)[i]
    ensures fid[i] * g.frag[i] + l[j] == g.SqueezeDim(d).Global(Squeeze(fid, d), l)[j]
  {
    assert l[j] < g.SqueezeDim(d).RealShape(Squeeze(fid, d))[j];
  }

  /** The task covers the plane's fragments, and cuts them at the local index. */
  ghost predicate PlaneTask(task: SliceTask, no: nat) {
    TaskValid(task) &&
    var g := task.volume.Gvt();
    && no < g.cube[task.dim] && task.idx == no % g.frag[task.dim]
    && forall k :: 0 <= k < |task.ids| ==> task.ids[k][task.dim] == no / g.frag[task.dim]
  }

  /** The sample of the extracted plane at a local point is the cube's sample at the global point. */
  lemma TileSample(task: SliceTask, no: nat, cube: Cube, store: Store, fid: Tuple, i: nat, j: nat)
    requires TaskValid(task) && task.idx == no % task.volume.shape[task.dim]
    requires var g := task.volume.Gvt();
             && no < g.cube[task.dim] && Stores(store, g, cube)
             && InShape(fid, g.Counts()) && fid[task.dim] == no / g.frag[task.dim]
    requires var g2 := task.volume.Gvt().SqueezeDim(task.dim);
             g2.Valid() && Real(g2, Squeeze(fid, task.dim), i, j)
    requires fid in store && |store[fid]| == Prod(task.volume.shape)
    ensures SampleGood(TileOf(task, fid, store[fid]), task.volume.Gvt().SqueezeDim(task.dim),
              Squeeze(fid, task.dim), PlaneTarget(task.volume.Gvt(), task.dim, no, cube), i, j)
  {
    var g, d, fs := task.volume.Gvt(), task.dim, task.volume.shape;
    var g2, f2 := g.SqueezeDim(d), Squeeze(fid, d);
    SqueezedValid(g, d);
    SqueezedInShape(fid, g.Counts(), d);
    RealPoint(g2, f2, i, j);
    var l, q := [i, j], g2.Global(f2, [i, j]);
    InsertGlobal(g, d, no, fid, l);
    assert FragmentStored(store, g, cube, fid);
    OffsetBound(l, g2.frag);
    PointOfOffset(l, g2.frag);
    PointOfOffset(q, g2.cube);
    assert PlaneOf(store[fid], fs, d, task.idx)[Offset(l, g2.frag)] == store[fid][Offset(Insert(l, d, task.idx), fs)];
    assert PlaneTarget(g, d, no, cube)[Offset(q, g2.cube)] == cube(Insert(q, d, no));
  }

  lemma TileIsGood(task: SliceTask, no: nat, cube: Cube, store: Store, k: nat)
    requires PlaneTask(task, no) && k < |task.ids|
    requires Stores(store, task.volume.Gvt(), cube) && Stored(task, store)
    ensures var g2 := task.volume.Gvt().SqueezeDim(task.dim);
            && Plane(g2) && InShape(Squeeze(task.ids[k], task.dim), g2.Counts())
            && TileGood(TilesOf(task, store)[k], g2, Squeeze(task.ids[k], task.dim),
                        PlaneTarget(task.volume.Gvt(), task.dim, no, cube))
  {
    var g, d, fid := task.volume.Gvt(), task.dim, task.ids[k];
    SqueezedValid(g, d);
    SqueezedInShape(fid, g.Counts(), d);
    forall i: nat, j: nat | Real(g.SqueezeDim(d), Squeeze(fid, d), i, j)
      ensures SampleGood(TilesOf(task, store)[k], g.SqueezeDim(d), Squeeze(fid, d), PlaneTarget(g, d, no, cube), i, j)
    {
      TileSample(task, no, cube, store, fid, i, j);
    }
  }

  /** The whole task of a plane: its fragments are the plane's, its bundle covers the plane exactly. */
  lemma SliceCovered(task: SliceTask, no: nat, cube: Cube, store: Store)
    requires PlaneTask(task, no) && task.ids == PlaneFragments(task.volume.Gvt(), task.dim, no)
    requires Stores(store, task.volume.Gvt(), cube)
    ensures Stored(task, store)
    ensures var target := PlaneTarget(task.volume.Gvt(), task.dim, no, cube);
            && TilesFit(TilesOf(task, store), |target|)
            && ExactCover(SliceWrites(TilesOf(task, store)), target)
  {
    var g, d, ids := task.volume.Gvt(), task.dim, task.ids;
    var target := PlaneTarget(g, d, no, cube);
    forall k | 0 <= k < |ids|
      ensures ids[k] in store && |store[ids[k]]| == Prod(task.volume.shape)
    {
      assert FragmentStored(store, g, cube, ids[k]);
    }
    SqueezedValid(g, d);
    PlaneFragmentsExact(g, d, no);
    var fids := seq(|ids|, k requires 0 <= k < |ids| => Squeeze(ids[k], d));
    forall k | 0 <= k < |ids|
      ensures InShape(fids[k], g.SqueezeDim(d).Counts())
              && TileGood(TilesOf(task, store)[k], g.SqueezeDim(d), fids[k], target)
    {
      TileIsGood(task, no, cube, store, k);
    }
    SqueezedFragments(g, d, no, ids, fids);
    SqueezeProd(g.frag, d);
    PlaneCovered(g.SqueezeDim(d), fids, TilesOf(task, store), target);
  }

  /** Squeezed, the fragments of a plane are the whole two-dimensional grid, each once. */
  lemma SqueezedFragments(g: Gvt, d: nat, no: nat, ids: seq<Tuple>, fids: seq<Tuple>)
    requires g.Valid() && |g.cube| > 1 && d < |g.cube| && no < g.cube[d] && |ids| == |fids|
    requires forall k :: 0 <= k < |ids| ==> |ids[k]| == |g.cube| && fids[k] == Squeeze(ids[k], d)
    requires forall f :: f in ids <==> InShape(f, g.Counts()) && f[d] == no / g.frag[d]
    requires forall i, j :: 0 <= i < j < |ids| ==> ids[i] != ids[j]
    requires g.SqueezeDim(d).Valid()
    ensures forall f :: f in fids <==> InShape(f, g.SqueezeDim(d).Counts())
    ensures forall i, j :: 0 <= i < j < |fids| ==> fids[i] != fids[j]
  {
    var w, pin := g.Counts(), no / g.frag[d];
    GlobalToLocal(g.cube[d], g.frag[d], no);
    SqueezedValid(g, d);
    forall f | f in fids
      ensures InShape(f, Squeeze(w, d))
    {
      var k :| 0 <= k < |fids| && fids[k] == f;
      assert ids[k] in ids;
      SqueezedInShape(ids[k], w, d);
    }
    forall f | InShape(f, Squeeze(w, d))
      ensures f in fids
    {
      InsertInShape(f, w, d, pin);
      SqueezeInsert(f, d, pin);
      assert Insert(f, d, pin) in ids;
      var k :| 0 <= k < |ids| && ids[k] == Insert(f, d, pin);
      assert fids[k] == f;
    }
    forall i, j | 0 <= i < j < |fids|
      ensures fids[i] != fids[j]
    {
      assert ids[i] in ids && ids[j] in ids;
      assert ids[i] == Insert(fids[i], d, pin) && ids[j] == Insert(fids[j], d, pin);
    }
  }
}
