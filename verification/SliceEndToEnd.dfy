/**
 * Slices from the query to the decoded buffers: planning, cutting in tasks,
 * extraction, any order of arrival, and any way the response is cut in pieces.
 */
module SliceEndToEnd {
  import opened Arith
  import opened Lists
  import opened Shapes
  import opened Geometry
  import opened Strides
  import opened Cells
  import opened Messages
  import opened Extraction
  import opened ArrayTag
  import opened Decoder
  import opened Stream
  import opened Partition
  import opened Plan
  import opened SliceWorker
  import opened SliceQuery
  import opened Assembly
  import opened CurtainPlan

  function IdsOf(t: SliceTask): seq<Tuple> {
    t.ids
  }

  function WithIds(t: SliceTask, ids: seq<Tuple>): SliceTask {
    t.(ids := ids)
  }

  /** What the worker of a task produces, given the fragments of every attribute. */
  function Output(stores: string -> Store, t: SliceTask): Object {
    if TaskValid(t) && Stored(t, stores(t.volume.attribute))
    then BundleOf(t, stores(t.volume.attribute))
    else OtherObject
  }

  /** What the worker of a task packs after adding the given fragments, in that order. */
  function Gathered(stores: string -> Store, t: SliceTask, added: seq<nat>): Object {
    if TaskValid(t) && Stored(t, stores(t.volume.attribute)) && forall i :: 0 <= i < |added| ==> added[i] < |t.ids|
    then PackedAfter(t, stores(t.volume.attribute), added)
    else OtherObject
  }

  /** The goroutine of a task, which packs and encodes what it gathers. */
  method Work(stores: string -> Store, t: SliceTask, arrival: seq<nat>, enc: Object -> seq<Byte>) returns (r: seq<Byte>)
    requires TaskValid(t) && Stored(t, stores(t.volume.attribute))
    requires forall i :: 0 <= i < |arrival| ==> arrival[i] < |t.ids|
    ensures r == enc(Gathered(stores, t, arrival))
  {
    var bundle := Gather(t, stores(t.volume.attribute), arrival);
    r := enc(bundle);
  }

  /** Every fragment added once, in whatever order, makes the bundle of the task. */
  lemma GatheredWhole(stores: string -> Store, t: SliceTask, added: seq<nat>)
    requires Whole(added, |t.ids|)
    ensures Gathered(stores, t, added) == Output(stores, t)
  {
    if TaskValid(t) && Stored(t, stores(t.volume.attribute)) {
      PackedWhole(t, stores(t.volume.attribute), added);
    }
  }

  /** One undivided task for every volume of a query. */
  function Outputs(q: Plan.SliceQuery): seq<SliceTask>
    requires SliceQueryValid(q)
  {
    VolumesValid(q.manifest, q.attributes, |q.attributes|);
    SliceTasks(Volumes(q.manifest, q.attributes, |q.attributes|), q.dim, q.idx)
  }

  /** The tasks of a query, in the order of the plan. */
  function Tasks(q: Plan.SliceQuery, taskSize: nat): seq<SliceTask>
    requires SliceQueryValid(q) && taskSize > 0
  {
    AllPieces(Outputs(q), IdsOf, WithIds, taskSize, |Outputs(q)|)
  }

  function Bundles(q: Plan.SliceQuery, taskSize: nat, stores: string -> Store): seq<Object>
    requires SliceQueryValid(q) && taskSize > 0
  {
    Map(t => Output(stores, t), Tasks(q, taskSize))
  }

  /** Fragments and planes are small enough for an int, and the fragments hold the cube. */
  ghost predicate VolumeReady(v: Volume, dim: nat, cube: Cube, store: Store) {
    && Curtain(v.Gvt()) && dim < 3
    && Prod(v.shape) <= INT_MAX && Prod(Squeeze(v.shapeCube, dim)) <= INT_MAX
    && Stores(store, v.Gvt(), cube)
  }

  ghost predicate Ready(q: Plan.SliceQuery, cubes: string -> Cube, stores: string -> Store) {
    && SliceQueryValid(q)
    && var vs := Volumes(q.manifest, q.attributes, |q.attributes|);
       forall i :: 0 <= i < |vs| ==> VolumeReady(vs[i], q.dim, cubes(vs[i].attribute), stores(vs[i].attribute))
  }

  /** The requested plane of a volume. */
  function Target(v: Volume, dim: nat, idx: nat, cube: Cube): seq<Sample>
    requires Curtain(v.Gvt()) && dim < 3
  {
    PlaneTarget(v.Gvt(), dim, Coerced(v, dim, idx), cube)
  }

  /*
   * One volume
   */

  lemma WholeTask(v: Volume, dim: nat, idx: nat, cube: Cube, store: Store)
    requires VolumeReady(v, dim, cube, store)
    ensures var t, target := SliceTaskOf(v, dim, idx), Target(v, dim, idx, cube);
            && TaskValid(t) && Stored(t, store)
            && TilesFit(TilesOf(t, store), |target|)
            && ExactCover(SliceWrites(TilesOf(t, store)), target)
  {
    var t, no := SliceTaskOf(v, dim, idx), Coerced(v, dim, idx);
    DivMod(no, v.shape[dim]);
    PlaneFragmentsExact(v.Gvt(), dim, no);
    forall k | 0 <= k < |t.ids|
      ensures InShape(t.ids[k], v.Gvt().Counts()) && t.ids[k][dim] == no / v.shape[dim]
    {
      assert t.ids[k] in PlaneFragments(v.Gvt(), dim, no);
    }
    SliceCovered(t, no, cube, store);
  }

  /** The cells that one fragment of a task writes. */
  function FragmentWrites(t: SliceTask, store: Store, id: Tuple): seq<Write>
    requires TaskValid(t)
  {
    if InShape(id, t.volume.Gvt().Counts()) && id in store && |store[id]| == Prod(t.volume.shape)
       && TileReads(TileOf(t, id, store[id]))
    then TileWrites(TileOf(t, id, store[id]))
    else []
  }

  /** A task for some of the fragments of another task. */
  ghost predicate PartOf(t: SliceTask, part: SliceTask) {
    part == t.(ids := part.ids) && SegmentOf(part.ids, t.ids)
  }

  lemma PartValid(t: SliceTask, part: SliceTask, store: Store, n: nat)
    requires TaskValid(t) && Stored(t, store) && PartOf(t, part) && TilesFit(TilesOf(t, store), n)
    ensures TaskValid(part) && Stored(part, store)
    ensures TilesFit(TilesOf(part, store), n)
    ensures SliceWrites(TilesOf(part, store))
            == Flatten(Map(id => if TaskValid(t) then FragmentWrites(t, store, id) else [], part.ids))
  {
    forall k | 0 <= k < |part.ids|
      ensures InShape(part.ids[k], t.volume.Gvt().Counts())
      ensures part.ids[k] in store && |store[part.ids[k]]| == Prod(t.volume.shape)
      ensures TileFits(TileOf(t, part.ids[k], store[part.ids[k]]), n)
    {
      assert part.ids[k] in t.ids;
      var j :| 0 <= j < |t.ids| && t.ids[j] == part.ids[k];
      assert TileFits(TilesOf(t, store)[j], n);
    }
    assert TaskValid(part) && Stored(part, store);
    forall k | 0 <= k < |part.ids|
      ensures TilesOf(part, store)[k] == TileOf(t, part.ids[k], store[part.ids[k]])
    {}
    assert TilePieces(TilesOf(part, store))
        == Map(id => if TaskValid(t) then FragmentWrites(t, store, id) else [], part.ids);
  }

  /** The writes of a task for the buffer of attribute a. */
  function TaskWrites(stores: string -> Store, a: string): SliceTask -> seq<Write> {
    t => WritesFor(a, Output(stores, t))
  }

  /** What every fragment of a task contributes to the buffer of attribute a. */
  function Contribution(t: SliceTask, stores: string -> Store, a: string): Tuple -> seq<Write> {
    if t.volume.attribute == a && TaskValid(t) then id => if TaskValid(t) then FragmentWrites(t, stores(a), id) else []
    else _ => []
  }

  lemma PartWrites(t: SliceTask, part: SliceTask, stores: string -> Store, a: string, n: nat)
    requires TaskValid(t) && Stored(t, stores(t.volume.attribute)) && PartOf(t, part)
    requires TilesFit(TilesOf(t, stores(t.volume.attribute)), n)
    ensures TaskWrites(stores, a)(part) == Flatten(Map(Contribution(t, stores, a), part.ids))
    ensures forall w: Writers :: (t.volume.attribute in w ==> |w[t.volume.attribute]| == n)
              ==> Accepted(SliceFunction, Output(stores, part), w)
  {
    PartValid(t, part, stores(t.volume.attribute), n);
    if t.volume.attribute == a {
      assert Map(Contribution(t, stores, a), part.ids)
          == Map(id => if TaskValid(t) then FragmentWrites(t, stores(a), id) else [], part.ids);
    } else {
      FlattenNone(Map(Contribution(t, stores, a), part.ids));
    }
  }

  /** The tasks of one volume together write what the undivided task would, for every attribute. */
  lemma VolumeWrites(v: Volume, dim: nat, idx: nat, taskSize: nat, cube: Cube, stores: string -> Store, a: string)
    requires taskSize > 0 && VolumeReady(v, dim, cube, stores(v.attribute))
    ensures var t := SliceTaskOf(v, dim, idx);
            Flatten(Map(TaskWrites(stores, a), Pieces(t, WithIds, Chunks(t.ids, taskSize)))) == TaskWrites(stores, a)(t)
  {
    var t := SliceTaskOf(v, dim, idx);
    var chunks, n := Chunks(t.ids, taskSize), |Target(v, dim, idx, cube)|;
    WholeTask(v, dim, idx, cube, stores(v.attribute));
    forall k | 0 <= k < |chunks|
      ensures TaskWrites(stores, a)(WithIds(t, chunks[k])) == Flatten(Map(Contribution(t, stores, a), chunks[k]))
    {
      ChunkOf(t.ids, taskSize, k);
      PartWrites(t, WithIds(t, chunks[k]), stores, a, n);
    }
    PiecesWrite(t, WithIds, chunks, TaskWrites(stores, a), Contribution(t, stores, a));
    ChunksLossless(t.ids, taskSize);
    WholeSegment(t.ids);
    PartWrites(t, t, stores, a, n);
  }

  /** For its own attribute, that is the requested plane, every cell of it exactly once. */
  lemma VolumeCovered(v: Volume, dim: nat, idx: nat, cube: Cube, stores: string -> Store)
    requires VolumeReady(v, dim, cube, stores(v.attribute))
    ensures ExactCover(TaskWrites(stores, v.attribute)(SliceTaskOf(v, dim, idx)), Target(v, dim, idx, cube))
    ensures forall a :: a != v.attribute ==> TaskWrites(stores, a)(SliceTaskOf(v, dim, idx)) == []
  {
    WholeTask(v, dim, idx, cube, stores(v.attribute));
  }

  /*
   * All volumes
   */

  /** What each volume's parts write, for the attribute of volume i. */
  lemma PartsWrite(
    q: Plan.SliceQuery, taskSize: nat, cubes: string -> Cube, stores: string -> Store, i: nat, k: nat)
    requires Ready(q, cubes, stores) && taskSize > 0 && i < |Outputs(q)| && k < |Outputs(q)|
    ensures var t, a := Outputs(q)[k], Outputs(q)[i].volume.attribute;
            Flatten(Map(TaskWrites(stores, a), Pieces(t, WithIds, Chunks(IdsOf(t), taskSize))))
            == if k == i then TaskWrites(stores, a)(t) else []
  {
    VolumesValid(q.manifest, q.attributes, |q.attributes|);
    var vs := Volumes(q.manifest, q.attributes, |q.attributes|);
    VolumeWrites(vs[k], q.dim, q.idx, taskSize, cubes(vs[k].attribute), stores, vs[i].attribute);
    VolumeCovered(vs[k], q.dim, q.idx, cubes(vs[k].attribute), stores);
  }

  lemma TasksWrite(q: Plan.SliceQuery, taskSize: nat, stores: string -> Store, a: string)
    requires SliceQueryValid(q) && taskSize > 0
    ensures AllWritesFor(a, Bundles(q, taskSize, stores)) == Flatten(Map(TaskWrites(stores, a), Tasks(q, taskSize)))
  {
    assert Map(o => WritesFor(a, o), Bundles(q, taskSize, stores)) == Map(TaskWrites(stores, a), Tasks(q, taskSize));
  }

  /** The bundles of all tasks cover the requested plane of volume i exactly. */
  lemma BundlesCover(q: Plan.SliceQuery, taskSize: nat, cubes: string -> Cube, stores: string -> Store, i: nat)
    requires Ready(q, cubes, stores) && taskSize > 0
    requires i < |Volumes(q.manifest, q.attributes, |q.attributes|)|
    ensures var v := Volumes(q.manifest, q.attributes, |q.attributes|)[i];
            Curtain(v.Gvt()) &&
            ExactCover(AllWritesFor(v.attribute, Bundles(q, taskSize, stores)),
              Target(v, q.dim, q.idx, cubes(v.attribute)))
  {
    var v, outputs := Volumes(q.manifest, q.attributes, |q.attributes|)[i], Outputs(q);
    var a := v.attribute;
    var plane := TaskWrites(stores, a)(outputs[i]);
    var whole: seq<seq<Write>> := seq(|outputs|, k => if k == i then plane else []);
    forall k | 0 <= k < |outputs|
      ensures Flatten(Map(TaskWrites(stores, a), Pieces(outputs[k], WithIds, Chunks(IdsOf(outputs[k]), taskSize))))
              == whole[k]
    {
      PartsWrite(q, taskSize, cubes, stores, i, k);
    }
    AllPiecesWrite(outputs, IdsOf, WithIds, taskSize, |outputs|, TaskWrites(stores, a), whole);
    FlattenOnly(whole, i, |outputs|);
    TasksWrite(q, taskSize, stores, a);
    VolumeCovered(v, q.dim, q.idx, cubes(a), stores);
  }

  lemma ThreeSamples(a: nat, b: nat, c: nat)
    ensures Samples([a, b, c]) == a * (b * c)
  {
    assert [c][1..] == [] && [b, c][1..] == [c] && [a, b, c][1..] == [b, c];
    assert Samples([c]) == c;
    assert Samples([b, c]) == b * c;
  }

  lemma TwoSlots(a: nat, b: nat)
    ensures Prod([a, b]) == a * b
  {
    assert [b][1..] == [] && [a, b][1..] == [b];
    assert Prod([b]) == b;
  }

  lemma ShapeSamples(s: Tuple, shape: seq<int>, dim: nat)
    requires |s| == 3 && dim < 3 && shape == s[dim := 1]
    ensures ShapeValid(shape) && Samples(shape) == Prod(Squeeze(s, dim))
  {
    var t := Squeeze(s, dim);
    assert t == [t[0], t[1]] && shape == [shape[0], shape[1], shape[2]];
    TwoSlots(t[0], t[1]);
    ThreeSamples(shape[0], shape[1], shape[2]);
  }

  /** The header asks for a buffer of the right size for every volume. */
  lemma BuffersFit(q: Plan.SliceQuery, n: int, i: nat)
    requires SliceQueryValid(q) && i < |Volumes(q.manifest, q.attributes, |q.attributes|)|
    ensures AllocatedFor(SliceHeader(q, n)).Some?
    ensures var v, w := Volumes(q.manifest, q.attributes, |q.attributes|)[i], AllocatedFor(SliceHeader(q, n)).value;
            Curtain(v.Gvt()) && v.attribute in w && |w[v.attribute]| == Prod(Squeeze(v.shapeCube, q.dim))
  {
    var m := q.manifest;
    VolumesValid(m, q.attributes, |q.attributes|);
    var shape, v := SliceShape(m, q.dim), Volumes(m, q.attributes, |q.attributes|)[i];
    ShapeSamples(CubeShape(m), shape, q.dim);
    ShapeSamples(CubeShape(m)[2 := 1], shape[2 := 1], q.dim);
    HeaderBuffers(SliceHeader(q, n), q.attributes, shape, shape[2 := 1]);
    if i > 0 {
      assert v.shapeCube == CubeShape(m)[2 := 1];
      assert q.attributes[..|q.attributes|] == q.attributes;
    }
  }

  /** A part of the task of volume i is one that the decoder accepts, for a buffer of the right size. */
  lemma PartAccepted(
    q: Plan.SliceQuery, cubes: string -> Cube, stores: string -> Store, i: nat, ids: seq<Tuple>, w: Writers)
    requires Ready(q, cubes, stores) && i < |Outputs(q)| && SegmentOf(ids, Outputs(q)[i].ids)
    requires var v := Outputs(q)[i].volume;
             v.attribute in w && |v.shapeCube| == 3 && |w[v.attribute]| == Prod(Squeeze(v.shapeCube, q.dim))
    ensures Accepted(SliceFunction, Output(stores, WithIds(Outputs(q)[i], ids)), w)
  {
    var v := Volumes(q.manifest, q.attributes, |q.attributes|)[i];
    WholeTask(v, q.dim, q.idx, cubes(v.attribute), stores(v.attribute));
    PartWrites(Outputs(q)[i], WithIds(Outputs(q)[i], ids), stores, v.attribute,
      |Target(v, q.dim, q.idx, cubes(v.attribute))|);
  }

  /** Every bundle is one that the decoder accepts, for buffers of the right sizes. */
  lemma BundleAccepted(
    q: Plan.SliceQuery, taskSize: nat, cubes: string -> Cube, stores: string -> Store, k: nat, w: Writers)
    requires Ready(q, cubes, stores) && taskSize > 0 && k < |Bundles(q, taskSize, stores)|
    requires Allotted(q, w)
    ensures Accepted(SliceFunction, Bundles(q, taskSize, stores)[k], w)
  {
    var i, ids := PieceOf(Outputs(q), IdsOf, WithIds, taskSize, |Outputs(q)|, k);
    assert AllottedFor(Outputs(q)[i].volume, q.dim, w);
    PartAccepted(q, cubes, stores, i, ids, w);
  }

  /** Every task is one its worker can do. */
  lemma TaskWorks(q: Plan.SliceQuery, taskSize: nat, cubes: string -> Cube, stores: string -> Store, k: nat)
    requires Ready(q, cubes, stores) && taskSize > 0 && k < |Tasks(q, taskSize)|
    ensures var t := Tasks(q, taskSize)[k]; TaskValid(t) && Stored(t, stores(t.volume.attribute))
  {
    var i, ids := PieceOf(Outputs(q), IdsOf, WithIds, taskSize, |Outputs(q)|, k);
    var v := Volumes(q.manifest, q.attributes, |q.attributes|)[i];
    WholeTask(v, q.dim, q.idx, cubes(v.attribute), stores(v.attribute));
    PartValid(Outputs(q)[i], WithIds(Outputs(q)[i], ids), stores(v.attribute),
      |Target(v, q.dim, q.idx, cubes(v.attribute))|);
  }

  /** The buffer of a volume holds its plane. */
  ghost predicate Delivered(v: Volume, dim: nat, idx: nat, cubes: string -> Cube, e: Extracted) {
    && Curtain(v.Gvt()) && dim < 3 && e.Wrote? && v.attribute in e.writers
    && e.writers[v.attribute] == Target(v, dim, idx, cubes(v.attribute))
  }

  /**
   * The outcome has what the query asks for in its header, the plane of every
   * volume, and zeros for the attributes that are not recorded.
   */
  ghost predicate Decodes(q: Plan.SliceQuery, cubes: string -> Cube, out: Outcome)
    requires SliceQueryValid(q)
  {
    out.Decoded? && AnnouncesSlice(q, out.header) && UnrecordedZero(q.manifest, out.header, out.writers) &&
    var vs := Volumes(q.manifest, q.attributes, |q.attributes|);
    forall i :: 0 <= i < |vs| ==> Delivered(vs[i], q.dim, q.idx, cubes, Wrote(out.writers))
  }

  /** Buffers of the right sizes for the planes of all volumes. */
  ghost predicate Allotted(q: Plan.SliceQuery, w: Writers)
    requires SliceQueryValid(q)
  {
    forall i :: 0 <= i < |Outputs(q)| ==> AllottedFor(Outputs(q)[i].volume, q.dim, w)
  }

  ghost predicate AllottedFor(v: Volume, dim: nat, w: Writers)
    requires dim < 3
  {
    v.attribute in w && |v.shapeCube| == 3 && |w[v.attribute]| == Prod(Squeeze(v.shapeCube, dim))
  }

  /** What arrives is accepted by the decoder, for the buffers that the header asks for. */
  lemma ArrivedAccepted(
    q: Plan.SliceQuery, taskSize: nat, cubes: string -> Cube, stores: string -> Store, arrived: seq<Object>)
    requires Ready(q, cubes, stores) && taskSize > 0 && Permutation(arrived, Bundles(q, taskSize, stores))
    ensures AllocatedFor(SliceHeader(q, |arrived|)).Some? && |Outputs(q)| > 0
    ensures var w := AllocatedFor(SliceHeader(q, |arrived|)).value;
            && Allotted(q, w)
            && forall k :: 0 <= k < |Bundles(q, taskSize, stores)| ==>
              Accepted(SliceFunction, Bundles(q, taskSize, stores)[k], w)
  {
    VolumesValid(q.manifest, q.attributes, |q.attributes|);
    BuffersFit(q, |arrived|, 0);
    var bundles, w := Bundles(q, taskSize, stores), AllocatedFor(SliceHeader(q, |arrived|)).value;
    forall i | 0 <= i < |Outputs(q)|
      ensures AllottedFor(Outputs(q)[i].volume, q.dim, w)
    {
      BuffersFit(q, |arrived|, i);
    }
    forall k | 0 <= k < |bundles|
      ensures Accepted(SliceFunction, bundles[k], w)
    {
      BundleAccepted(q, taskSize, cubes, stores, k, w);
    }
  }

  lemma VolumeDelivered(
    q: Plan.SliceQuery, taskSize: nat, cubes: string -> Cube, stores: string -> Store, arrived: seq<Object>, w: Writers,
    i: nat)
    requires Ready(q, cubes, stores) && taskSize > 0 && Permutation(arrived, Bundles(q, taskSize, stores))
    requires Allotted(q, w) && i < |Outputs(q)|
    requires forall k :: 0 <= k < |Bundles(q, taskSize, stores)| ==>
              Accepted(SliceFunction, Bundles(q, taskSize, stores)[k], w)
    ensures Delivered(Volumes(q.manifest, q.attributes, |q.attributes|)[i], q.dim, q.idx, cubes,
              ExtractAll(SliceFunction, arrived, w))
  {
    var v := Volumes(q.manifest, q.attributes, |q.attributes|)[i];
    assert AllottedFor(Outputs(q)[i].volume, q.dim, w);
    BundlesCover(q, taskSize, cubes, stores, i);
    Assembled(SliceFunction, Bundles(q, taskSize, stores), arrived, w, v.attribute,
      Target(v, q.dim, q.idx, cubes(v.attribute)));
  }

  /** The bundles in the order of arrival fill the buffers that the header asks for. */
  lemma ArrivedFill(
    q: Plan.SliceQuery, taskSize: nat, cubes: string -> Cube, stores: string -> Store, arrived: seq<Object>)
    requires Ready(q, cubes, stores) && taskSize > 0 && Permutation(arrived, Bundles(q, taskSize, stores))
    ensures AllocatedFor(SliceHeader(q, |arrived|)).Some?
    ensures var vs := Volumes(q.manifest, q.attributes, |q.attributes|);
            var e := ExtractAll(SliceFunction, arrived, AllocatedFor(SliceHeader(q, |arrived|)).value);
            |vs| > 0 && forall i :: 0 <= i < |vs| ==> Delivered(vs[i], q.dim, q.idx, cubes, e)
  {
    ArrivedAccepted(q, taskSize, cubes, stores, arrived);
    var w := AllocatedFor(SliceHeader(q, |arrived|)).value;
    forall i | 0 <= i < |Outputs(q)|
      ensures Delivered(Volumes(q.manifest, q.attributes, |q.attributes|)[i], q.dim, q.idx, cubes,
                ExtractAll(SliceFunction, arrived, w))
    {
      VolumeDelivered(q, taskSize, cubes, stores, arrived, w, i);
    }
  }

  /** No task has anything for an attribute without a volume. */
  lemma NoBundleFor(q: Plan.SliceQuery, taskSize: nat, stores: string -> Store, a: string, k: nat)
    requires SliceQueryValid(q) && taskSize > 0 && k < |Bundles(q, taskSize, stores)|
    requires forall i :: 0 <= i < |Outputs(q)| ==> Outputs(q)[i].volume.attribute != a
    ensures WritesFor(a, Bundles(q, taskSize, stores)[k]) == []
  {
    var i, ids := PieceOf(Outputs(q), IdsOf, WithIds, taskSize, |Outputs(q)|, k);
    assert Tasks(q, taskSize)[k].volume.attribute != a;
  }

  lemma AnnouncedProper(q: Plan.SliceQuery, head: Header)
    requires SliceQueryValid(q) && AnnouncesSlice(q, head)
    ensures Distinct(head.attributes) && |SplitShapes(head.shapes)| == |head.attributes|
    ensures forall i :: 0 <= i < |head.attributes| ==> ShapeValid(SplitShapes(head.shapes)[i])
  {
    DistinctNames(q.attributes, head.attributes);
    forall i | 0 <= i < |head.attributes|
      ensures ShapeValid(SplitShapes(head.shapes)[i])
    {
      assert IsSliceShape(q, i, SplitShapes(head.shapes)[i]);
    }
  }

  lemma NoneFor(q: Plan.SliceQuery, taskSize: nat, stores: string -> Store, a: string)
    requires SliceQueryValid(q) && taskSize > 0 && !Recorded(q.manifest, a) && a != "data"
    ensures forall j :: 0 <= j < |Bundles(q, taskSize, stores)| ==> WritesFor(a, Bundles(q, taskSize, stores)[j]) == []
  {
    forall i | 0 <= i < |Outputs(q)|
      ensures Outputs(q)[i].volume.attribute != a
    {
      NoVolume(q.manifest, q.attributes, a, i);
    }
    forall j | 0 <= j < |Bundles(q, taskSize, stores)|
      ensures WritesFor(a, Bundles(q, taskSize, stores)[j]) == []
    {
      NoBundleFor(q, taskSize, stores, a, j);
    }
  }

  /** The attributes without a description keep their zeros. */
  lemma UnrecordedLeft(
    q: Plan.SliceQuery, taskSize: nat, stores: string -> Store, head: Header, arrived: seq<Object>, w: Writers)
    requires SliceQueryValid(q) && taskSize > 0 && AnnouncesSlice(q, head) && AllocatedFor(head) == Some(w)
    requires Permutation(arrived, Bundles(q, taskSize, stores))
    requires forall k :: 0 <= k < |Bundles(q, taskSize, stores)| ==>
               Accepted(SliceFunction, Bundles(q, taskSize, stores)[k], w)
    requires ExtractAll(SliceFunction, arrived, w).Wrote?
    ensures UnrecordedZero(q.manifest, head, ExtractAll(SliceFunction, arrived, w).writers)
  {
    AnnouncedProper(q, head);
    forall k | 1 <= k < |head.attributes| && !Recorded(q.manifest, head.attributes[k])
      ensures Buffered(head.attributes, SplitShapes(head.shapes), k, ExtractAll(SliceFunction, arrived, w).writers)
    {
      NoneFor(q, taskSize, stores, head.attributes[k]);
      LeftZero(SliceFunction, head, Bundles(q, taskSize, stores), arrived, w, k);
    }
  }

  /**
   * For every manifest, plane, task size, and order in which the tasks finish:
   * the response decodes, and every recorded attribute's buffer is its plane.
   */
  lemma SliceDecodes(
    q: Plan.SliceQuery, taskSize: nat, cubes: string -> Cube, stores: string -> Store, arrived: seq<Object>,
    next: Unpacker, enc: Object -> seq<Byte>)
    requires Ready(q, cubes, stores) && taskSize > 0 && PrefixStable(next) && Encodes(enc, next)
    requires Permutation(arrived, Bundles(q, taskSize, stores)) && |arrived| <= INT_MAX
    ensures Decodes(q, cubes, DecodeAll(next, Response(enc, SliceHeader(q, |arrived|), arrived)))
    ensures Complete(next, Response(enc, SliceHeader(q, |arrived|), arrived))
  {
    ArrivedFill(q, taskSize, cubes, stores, arrived);
    var head := SliceHeader(q, |arrived|);
    var e := ExtractAll(SliceFunction, arrived, AllocatedFor(head).value);
    assert Delivered(Volumes(q.manifest, q.attributes, |q.attributes|)[0], q.dim, q.idx, cubes, e);
    DecodeResponse(next, enc, head, arrived, e.writers);
    SliceAnnounced(q, |arrived|);
    ArrivedAccepted(q, taskSize, cubes, stores, arrived);
    UnrecordedLeft(q, taskSize, stores, head, arrived, AllocatedFor(head).value);
  }
}
