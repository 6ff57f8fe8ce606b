/**
 * Curtains from the query to the decoded buffers: planning, cutting in tasks,
 * extraction, any order of arrival, and any way the response is cut in pieces.
 */
module CurtainEndToEnd {
  import opened Arith
  import opened Lists
  import opened Shapes
  import opened Geometry
  import opened Cells
  import opened Messages
  import opened ArrayTag
  import opened Decoder
  import opened Stream
  import opened Partition
  import opened Plan
  import opened CurtainPlan
  import opened Grouping
  import opened CurtainWorker
  import opened CurtainQuery
  import opened CurtainCover
  import opened Assembly

  function IdsOf(t: CurtainTask): seq<Single> {
    t.ids
  }

  function WithIds(t: CurtainTask, ids: seq<Single>): CurtainTask {
    t.(ids := ids)
  }

  /** What the worker of a task produces, given the fragments of every attribute. */
  function Output(stores: string -> Store, t: CurtainTask): Object {
    if TaskValid(t) && Stored(t, stores(t.volume.attribute))
    then BundleOf(t, stores(t.volume.attribute))
    else OtherObject
  }

  /** What the worker of a task packs after adding the given fragments, in that order. */
  function Gathered(stores: string -> Store, t: CurtainTask, added: seq<nat>): Object {
    if TaskValid(t) && Stored(t, stores(t.volume.attribute)) && forall i :: 0 <= i < |added| ==> added[i] < |t.ids|
    then PackedAfter(t, stores(t.volume.attribute), added)
    else OtherObject
  }

  /** The goroutine of a task, which packs and encodes what it gathers. */
  method Work(stores: string -> Store, t: CurtainTask, arrival: seq<nat>, enc: Object -> seq<Byte>)
    returns (r: seq<Byte>)
    requires TaskValid(t) && Stored(t, stores(t.volume.attribute))
    requires forall i :: 0 <= i < |arrival| ==> arrival[i] < |t.ids|
    ensures r == enc(Gathered(stores, t, arrival))
  {
    var bundle := Gather(t, stores(t.volume.attribute), arrival);
    r := enc(bundle);
  }

  /** Every fragment added once, in whatever order, makes the bundle of the task. */
  lemma GatheredWhole(stores: string -> Store, t: CurtainTask, added: seq<nat>)
    requires Whole(added, |t.ids|)
    ensures Gathered(stores, t, added) == Output(stores, t)
  {
    if TaskValid(t) && Stored(t, stores(t.volume.attribute)) {
      PackedWhole(t, stores(t.volume.attribute), added);
    }
  }

  /** The parts that the planned tasks are cut in. */
  function Tasks(planned: seq<CurtainTask>, taskSize: nat): seq<CurtainTask>
    requires taskSize > 0
  {
    AllPieces(planned, IdsOf, WithIds, taskSize, |planned|)
  }

  function Bundles(planned: seq<CurtainTask>, taskSize: nat, stores: string -> Store): seq<Object>
    requires taskSize > 0
  {
    Map(t => Output(stores, t), Tasks(planned, taskSize))
  }

  /** Fragments and the requested traces are small enough for an int, and the fragments hold the cube. */
  ghost predicate VolumeReady(v: Volume, rows: nat, cube: Cube, store: Store) {
    && Curtain(v.Gvt()) && Prod(v.shape) <= INT_MAX
    && v.shapeCube[2] <= INT_MAX && rows * v.shapeCube[2] <= INT_MAX
    && Stores(store, v.Gvt(), cube)
  }

  /** The tasks are planned for the points, and everything they need is stored. */
  ghost predicate Ready(
    q: Plan.CurtainQuery, planned: seq<CurtainTask>, cols: seq<seq<Column>>, cubes: string -> Cube,
    stores: string -> Store)
  {
    && CurtainQueryValid(q)
    && var vs := Volumes(q.manifest, q.attributes, |q.attributes|);
       && AreCurtainTasks(planned, vs, PointsOf(q), cols)
       && forall i :: 0 <= i < |vs| ==> VolumeReady(vs[i], |q.dim0s|, cubes(vs[i].attribute), stores(vs[i].attribute))
  }

  /*
   * One volume
   */

  lemma WholeTask(task: CurtainTask, v: Volume, pts: seq<Point>, cols: seq<Column>, cube: Cube, store: Store)
    requires VolumeReady(v, |pts|, cube, store) && PointsIn(v.Gvt(), pts) && IsCurtainTask(task, v, pts, cols)
    ensures TaskValid(task) && Stored(task, store) && RowsIn(task, |pts|)
  {
    PlannedValid(task, pts, cols);
    PlannedStored(task, pts, cols, cube, store);
  }

  /** The rows that a task delivers are rows of the output. */
  ghost predicate RowsIn(task: CurtainTask, rows: nat) {
    forall k :: 0 <= k < |task.ids| ==> LastRow(task.ids[k]) <= rows
  }

  /** The cells that one fragment of a task writes. */
  function FragmentWrites(t: CurtainTask, store: Store, s: Single): seq<Write> {
    var g := t.volume.Gvt();
    if Curtain(g) && SingleValid(g, s) && s.id in store && |store[s.id]| == Prod(g.frag)
    then SinglePiece(g, s, store[s.id])
    else []
  }

  /** A task for some of the fragments of another task, next to each other. */
  ghost predicate PartOf(t: CurtainTask, part: CurtainTask) {
    part == t.(ids := part.ids) && SegmentOf(part.ids, t.ids)
  }

  /** The prefix sums of a part are differences of those of the whole. */
  lemma {:induction false} PartStart(g: Gvt, ids: seq<Single>, lo: nat, hi: nat, k: nat)
    requires Curtain(g) && forall i :: 0 <= i < |ids| ==> |ids[i].id| == 3
    requires lo <= hi <= |ids| && k <= hi - lo
    ensures Start(g, ids[lo..hi], k) == Start(g, ids, lo + k) - Start(g, ids, lo)
  {
    if k > 0 {
      PartStart(g, ids, lo, hi, k - 1);
    }
  }

  lemma PartSmaller(g: Gvt, ids: seq<Single>, part: seq<Single>)
    requires Curtain(g) && forall i :: 0 <= i < |ids| ==> |ids[i].id| == 3
    requires SegmentOf(part, ids)
    ensures |part| <= |ids| && Start(g, part, |part|) <= Start(g, ids, |ids|)
  {
    var lo: nat, hi: nat :| lo <= hi <= |ids| && part == ids[lo..hi];
    var n := hi - lo;
    PartStart(g, ids, lo, hi, n);
    assert |part| == n;
    assert Start(g, part, n) <= Start(g, ids, lo + n);
    StartMono(g, ids, hi, |ids|);
  }

  lemma PartValid(t: CurtainTask, part: CurtainTask, store: Store, rows: nat)
    requires TaskValid(t) && Stored(t, store) && PartOf(t, part) && RowsIn(t, rows)
    ensures TaskValid(part) && Stored(part, store) && RowsIn(part, rows)
  {
    PartSmaller(t.volume.Gvt(), t.ids, part.ids);
    forall k | 0 <= k < |part.ids|
      ensures SingleValid(t.volume.Gvt(), part.ids[k])
      ensures part.ids[k].id in store && |store[part.ids[k].id]| == Prod(t.volume.shape)
      ensures LastRow(part.ids[k]) <= rows && LastRow(part.ids[k]) <= INT_MAX
    {
      var j :| 0 <= j < |t.ids| && t.ids[j] == part.ids[k];
      assert SingleValid(t.volume.Gvt(), t.ids[j]) && LastRow(t.ids[j]) <= rows;
    }
  }

  lemma PiecesMap(t: CurtainTask, part: CurtainTask, store: Store)
    requires TaskValid(part) && Stored(part, store) && PartOf(t, part)
    ensures SinglePieces(part, store) == Map(s => FragmentWrites(t, store, s), part.ids)
  {
    forall k | 0 <= k < |part.ids|
      ensures SinglePieces(part, store)[k] == FragmentWrites(t, store, part.ids[k])
    {
      assert SingleValid(part.volume.Gvt(), part.ids[k]);
    }
  }

  /** The writes of a task for the buffer of attribute a. */
  function TaskWrites(stores: string -> Store, a: string): CurtainTask -> seq<Write> {
    t => WritesFor(a, Output(stores, t))
  }

  /** A task writes its own attribute's traces, and nothing else. */
  lemma TaskWritesIs(t: CurtainTask, stores: string -> Store, a: string)
    requires TaskValid(t) && Stored(t, stores(t.volume.attribute))
    ensures TaskWrites(stores, a)(t)
            == if t.volume.attribute == a then Flatten(SinglePieces(t, stores(a))) else []
  {
    BundleWrites(t, stores(t.volume.attribute));
    WritesForCurtain(a, t.volume.attribute, BodyOf(t, stores(t.volume.attribute)));
  }

  /** What every fragment of a task contributes to the buffer of attribute a. */
  function Contribution(t: CurtainTask, stores: string -> Store, a: string): Single -> seq<Write> {
    if t.volume.attribute == a then s => FragmentWrites(t, stores(a), s) else _ => []
  }

  lemma PartWrites(t: CurtainTask, part: CurtainTask, stores: string -> Store, a: string, rows: nat)
    requires TaskValid(t) && Stored(t, stores(t.volume.attribute)) && PartOf(t, part) && RowsIn(t, rows)
    ensures TaskWrites(stores, a)(part) == Flatten(Map(Contribution(t, stores, a), part.ids))
  {
    var store := stores(t.volume.attribute);
    PartValid(t, part, store, rows);
    TaskWritesIs(part, stores, a);
    if t.volume.attribute == a {
      PiecesMap(t, part, store);
      assert Map(Contribution(t, stores, a), part.ids) == Map(s => FragmentWrites(t, store, s), part.ids);
    } else {
      FlattenNone(Map(Contribution(t, stores, a), part.ids));
    }
  }

  lemma PartAccepted(t: CurtainTask, part: CurtainTask, stores: string -> Store, rows: nat, w: Writers)
    requires TaskValid(t) && Stored(t, stores(t.volume.attribute)) && PartOf(t, part) && RowsIn(t, rows)
    requires t.volume.attribute in w && |w[t.volume.attribute]| == rows * t.volume.shapeCube[2] <= INT_MAX
    ensures Accepted(CurtainFunction, Output(stores, part), w)
  {
    PartValid(t, part, stores(t.volume.attribute), rows);
    BundleFits(part, stores(t.volume.attribute), rows);
  }

  /** The parts of one volume's task together write what the undivided task would, for every attribute. */
  lemma VolumeWrites(t: CurtainTask, taskSize: nat, stores: string -> Store, a: string, rows: nat)
    requires taskSize > 0 && TaskValid(t) && Stored(t, stores(t.volume.attribute)) && RowsIn(t, rows)
    ensures Flatten(Map(TaskWrites(stores, a), Pieces(t, WithIds, Chunks(t.ids, taskSize)))) == TaskWrites(stores, a)(t)
  {
    var chunks := Chunks(t.ids, taskSize);
    forall k | 0 <= k < |chunks|
      ensures TaskWrites(stores, a)(WithIds(t, chunks[k])) == Flatten(Map(Contribution(t, stores, a), chunks[k]))
    {
      ChunkOf(t.ids, taskSize, k);
      PartWrites(t, WithIds(t, chunks[k]), stores, a, rows);
    }
    PiecesWrite(t, WithIds, chunks, TaskWrites(stores, a), Contribution(t, stores, a));
    ChunksLossless(t.ids, taskSize);
    WholeSegment(t.ids);
    PartWrites(t, t, stores, a, rows);
  }

  /*
   * All volumes
   */

  lemma PlannedTask(
    q: Plan.CurtainQuery, planned: seq<CurtainTask>, cols: seq<seq<Column>>, cubes: string -> Cube,
    stores: string -> Store, i: nat)
    requires Ready(q, planned, cols, cubes, stores) && i < |planned|
    ensures var v := Volumes(q.manifest, q.attributes, |q.attributes|)[i];
            && planned[i].volume == v && Curtain(v.Gvt()) && PointsIn(v.Gvt(), PointsOf(q))
            && TaskValid(planned[i]) && Stored(planned[i], stores(v.attribute)) && RowsIn(planned[i], |q.dim0s|)
            && CurtainCover.Planned(planned[i], PointsOf(q), cols[i])
  {
    var v := Volumes(q.manifest, q.attributes, |q.attributes|)[i];
    PointsInVolume(q, i);
    WholeTask(planned[i], v, PointsOf(q), cols[i], cubes(v.attribute), stores(v.attribute));
  }

  /** What each volume's parts write, for the attribute of volume i. */
  lemma PartsWrite(
    q: Plan.CurtainQuery, planned: seq<CurtainTask>, cols: seq<seq<Column>>, taskSize: nat, cubes: string -> Cube,
    stores: string -> Store, i: nat, k: nat)
    requires Ready(q, planned, cols, cubes, stores) && taskSize > 0 && i < |planned| && k < |planned|
    ensures var t, a := planned[k], planned[i].volume.attribute;
            && TaskValid(t) && Stored(t, stores(t.volume.attribute))
            && Flatten(Map(TaskWrites(stores, a), Pieces(t, WithIds, Chunks(IdsOf(t), taskSize))))
               == if k == i then Flatten(SinglePieces(t, stores(a))) else []
  {
    VolumesValid(q.manifest, q.attributes, |q.attributes|);
    PlannedTask(q, planned, cols, cubes, stores, i);
    PlannedTask(q, planned, cols, cubes, stores, k);
    VolumeWrites(planned[k], taskSize, stores, planned[i].volume.attribute, |q.dim0s|);
    TaskWritesIs(planned[k], stores, planned[i].volume.attribute);
  }

  /** All bundles together write what the undivided task of volume i would, for its attribute. */
  lemma BundlesWrite(
    q: Plan.CurtainQuery, planned: seq<CurtainTask>, cols: seq<seq<Column>>, taskSize: nat, cubes: string -> Cube,
    stores: string -> Store, i: nat)
    requires Ready(q, planned, cols, cubes, stores) && taskSize > 0 && i < |planned|
    ensures TaskValid(planned[i]) && Stored(planned[i], stores(planned[i].volume.attribute))
    ensures var a := planned[i].volume.attribute;
            AllWritesFor(a, Bundles(planned, taskSize, stores)) == Flatten(SinglePieces(planned[i], stores(a)))
  {
    PlannedTask(q, planned, cols, cubes, stores, i);
    var a := planned[i].volume.attribute;
    var pieces := Flatten(SinglePieces(planned[i], stores(a)));
    var whole: seq<seq<Write>> := seq(|planned|, k => if k == i then pieces else []);
    forall k | 0 <= k < |planned|
      ensures Flatten(Map(TaskWrites(stores, a), Pieces(planned[k], WithIds, Chunks(IdsOf(planned[k]), taskSize))))
              == whole[k]
    {
      PartsWrite(q, planned, cols, taskSize, cubes, stores, i, k);
    }
    AllPiecesWrite(planned, IdsOf, WithIds, taskSize, |planned|, TaskWrites(stores, a), whole);
    FlattenOnly(whole, i, |planned|);
    TasksWrite(planned, taskSize, stores, a);
  }

  lemma TasksWrite(planned: seq<CurtainTask>, taskSize: nat, stores: string -> Store, a: string)
    requires taskSize > 0
    ensures AllWritesFor(a, Bundles(planned, taskSize, stores))
            == Flatten(Map(TaskWrites(stores, a), Tasks(planned, taskSize)))
  {
    assert Map(o => WritesFor(a, o), Bundles(planned, taskSize, stores))
      == Map(TaskWrites(stores, a), Tasks(planned, taskSize));
  }

  /** The bundles of all tasks cover the requested traces of a volume with contiguous columns exactly. */
  lemma BundlesCover(
    q: Plan.CurtainQuery, planned: seq<CurtainTask>, cols: seq<seq<Column>>, taskSize: nat, cubes: string -> Cube,
    stores: string -> Store, i: nat)
    requires Ready(q, planned, cols, cubes, stores) && taskSize > 0 && i < |planned|
    requires Curtain(planned[i].volume.Gvt()) && Contiguous(planned[i].volume.Gvt(), PointsOf(q))
    ensures var v := planned[i].volume;
            ExactCover(AllWritesFor(v.attribute, Bundles(planned, taskSize, stores)),
              CurtainTarget(v.Gvt(), PointsOf(q), cubes(v.attribute)))
  {
    PlannedTask(q, planned, cols, cubes, stores, i);
    BundlesWrite(q, planned, cols, taskSize, cubes, stores, i);
    var a := planned[i].volume.attribute;
    CurtainCovered(planned[i], PointsOf(q), cols[i], cubes(a), stores(a));
  }

  /** The header asks for a buffer of the right size for every volume. */
  lemma BuffersFit(q: Plan.CurtainQuery, n: int, i: nat)
    requires CurtainQueryValid(q) && i < |Volumes(q.manifest, q.attributes, |q.attributes|)|
    ensures AllocatedFor(CurtainHeader(q, n)).Some?
    ensures var v, w := Volumes(q.manifest, q.attributes, |q.attributes|)[i], AllocatedFor(CurtainHeader(q, n)).value;
            && Curtain(v.Gvt()) && v.attribute in w && 0 <= |q.dim0s| * v.shapeCube[2]
            && w[v.attribute] == ZeroSamples(|q.dim0s| * v.shapeCube[2])
  {
    var m := q.manifest;
    VolumesValid(m, q.attributes, |q.attributes|);
    var v, rows, depth := Volumes(m, q.attributes, |q.attributes|)[i], |q.dim0s|, Size(m, 2);
    assert Samples([depth]) == depth && Samples([rows]) == rows by {
      assert [depth][1..] == [] && [rows][1..] == [];
    }
    assert [rows, depth][1..] == [depth];
    assert Samples([rows, depth]) == rows * depth;
    HeaderBuffers(CurtainHeader(q, n), q.attributes, [rows, depth], [rows]);
    MulMono(0, rows, v.shapeCube[2]);
    if i > 0 {
      assert q.attributes[..|q.attributes|] == q.attributes;
    }
  }

  /** Every bundle is one that the decoder accepts, for buffers of the right sizes. */
  lemma BundleAccepted(
    q: Plan.CurtainQuery, planned: seq<CurtainTask>, cols: seq<seq<Column>>, taskSize: nat, cubes: string -> Cube,
    stores: string -> Store, k: nat, w: Writers)
    requires Ready(q, planned, cols, cubes, stores) && taskSize > 0 && k < |Bundles(planned, taskSize, stores)|
    requires Allotted(planned, |q.dim0s|, w)
    ensures Accepted(CurtainFunction, Bundles(planned, taskSize, stores)[k], w)
  {
    var i, ids := PieceOf(planned, IdsOf, WithIds, taskSize, |planned|, k);
    PlannedTask(q, planned, cols, cubes, stores, i);
    PartAccepted(planned[i], WithIds(planned[i], ids), stores, |q.dim0s|, w);
  }

  /** Every task is one its worker can do. */
  lemma TaskWorks(
    q: Plan.CurtainQuery, planned: seq<CurtainTask>, cols: seq<seq<Column>>, taskSize: nat, cubes: string -> Cube,
    stores: string -> Store, k: nat)
    requires Ready(q, planned, cols, cubes, stores) && taskSize > 0 && k < |Tasks(planned, taskSize)|
    ensures var t := Tasks(planned, taskSize)[k]; TaskValid(t) && Stored(t, stores(t.volume.attribute))
  {
    var i, ids := PieceOf(planned, IdsOf, WithIds, taskSize, |planned|, k);
    PlannedTask(q, planned, cols, cubes, stores, i);
    PartValid(planned[i], WithIds(planned[i], ids), stores(planned[i].volume.attribute), |q.dim0s|);
  }

  /** The buffer of a volume holds the requested traces, row by row. */
  ghost predicate Delivered(v: Volume, pts: seq<Point>, cubes: string -> Cube, writers: Writers) {
    && Curtain(v.Gvt()) && v.attribute in writers
    && writers[v.attribute] == CurtainTarget(v.Gvt(), pts, cubes(v.attribute))
  }

  /** Zeroed buffers of the right sizes. */
  ghost predicate Allotted(planned: seq<CurtainTask>, rows: nat, w: Writers) {
    forall i :: 0 <= i < |planned| ==> AllottedFor(planned[i].volume, rows, w)
  }

  ghost predicate AllottedFor(v: Volume, rows: nat, w: Writers) {
    && Curtain(v.Gvt()) && v.attribute in w
    && 0 <= rows * v.shapeCube[2] && w[v.attribute] == ZeroSamples(rows * v.shapeCube[2])
  }

  /** What arrives is extracted, in whatever order. */
  lemma ArrivedAccepted(
    q: Plan.CurtainQuery, planned: seq<CurtainTask>, cols: seq<seq<Column>>, taskSize: nat, cubes: string -> Cube,
    stores: string -> Store, arrived: seq<Object>)
    requires Ready(q, planned, cols, cubes, stores) && taskSize > 0
    requires Permutation(arrived, Bundles(planned, taskSize, stores))
    ensures AllocatedFor(CurtainHeader(q, |arrived|)).Some?
    ensures var w := AllocatedFor(CurtainHeader(q, |arrived|)).value;
            && Allotted(planned, |q.dim0s|, w)
            && forall k :: 0 <= k < |arrived| ==> Accepted(CurtainFunction, arrived[k], w)
  {
    VolumesValid(q.manifest, q.attributes, |q.attributes|);
    BuffersFit(q, |arrived|, 0);
    var bundles, w := Bundles(planned, taskSize, stores), AllocatedFor(CurtainHeader(q, |arrived|)).value;
    forall i | 0 <= i < |planned|
      ensures AllottedFor(planned[i].volume, |q.dim0s|, w)
    {
      PlannedTask(q, planned, cols, cubes, stores, i);
      BuffersFit(q, |arrived|, i);
    }
    forall k | 0 <= k < |bundles|
      ensures Accepted(CurtainFunction, bundles[k], w)
    {
      BundleAccepted(q, planned, cols, taskSize, cubes, stores, k, w);
    }
    AcceptedArrived(CurtainFunction, bundles, arrived, w);
  }

  /**
   * The outcome has what the query asks for in its header, the requested traces
   * of every volume with contiguous columns, and zeros for the attributes that
   * are not recorded.
   */
  ghost predicate Decodes(q: Plan.CurtainQuery, cubes: string -> Cube, out: Outcome)
    requires CurtainQueryValid(q)
  {
    out.Decoded? && AnnouncesCurtain(q, out.header) && UnrecordedZero(q.manifest, out.header, out.writers) &&
    var vs := Volumes(q.manifest, q.attributes, |q.attributes|);
    forall i :: 0 <= i < |vs| ==>
      && Curtain(vs[i].Gvt()) && vs[i].attribute in out.writers
      && (Contiguous(vs[i].Gvt(), PointsOf(q)) ==> Delivered(vs[i], PointsOf(q), cubes, out.writers))
  }

  /** The points of a query are grouped by the fragments of the data, so the data is always among those volumes. */
  lemma DataIsContiguous(q: Plan.CurtainQuery, pts: seq<Point>)
    requires CurtainQueryValid(q) && Curtain(DataVolume(q.manifest).Gvt())
    requires PointsOf(q) == Grouped(DataVolume(q.manifest).Gvt(), pts)
    ensures |Volumes(q.manifest, q.attributes, |q.attributes|)| > 0
    ensures var v := Volumes(q.manifest, q.attributes, |q.attributes|)[0];
            v.attribute == "data" && Curtain(v.Gvt()) && Contiguous(v.Gvt(), PointsOf(q))
  {
    VolumesValid(q.manifest, q.attributes, |q.attributes|);
    GroupedContiguous(DataVolume(q.manifest).Gvt(), pts);
  }

  /** For the points of a query as they are planned, the data is among what is delivered. */
  lemma DataDelivered(q: Plan.CurtainQuery, pts: seq<Point>, cubes: string -> Cube, out: Outcome)
    requires CurtainQueryValid(q) && Curtain(DataVolume(q.manifest).Gvt())
    requires PointsOf(q) == Grouped(DataVolume(q.manifest).Gvt(), pts) && Decodes(q, cubes, out)
    ensures Delivered(DataVolume(q.manifest), PointsOf(q), cubes, out.writers)
  {
    VolumesValid(q.manifest, q.attributes, |q.attributes|);
    DataIsContiguous(q, pts);
  }

  /** No task has anything for an attribute without a volume. */
  lemma NoBundleFor(planned: seq<CurtainTask>, taskSize: nat, stores: string -> Store, a: string, k: nat)
    requires taskSize > 0 && k < |Bundles(planned, taskSize, stores)|
    requires forall i :: 0 <= i < |planned| ==> planned[i].volume.attribute != a
    ensures WritesFor(a, Bundles(planned, taskSize, stores)[k]) == []
  {
    var i, ids := PieceOf(planned, IdsOf, WithIds, taskSize, |planned|, k);
    assert Tasks(planned, taskSize)[k].volume.attribute != a;
  }

  lemma AnnouncedProper(q: Plan.CurtainQuery, head: Header)
    requires CurtainQueryValid(q) && AnnouncesCurtain(q, head)
    ensures Distinct(head.attributes) && |SplitShapes(head.shapes)| == |head.attributes|
    ensures forall i :: 0 <= i < |head.attributes| ==> ShapeValid(SplitShapes(head.shapes)[i])
  {
    DistinctNames(q.attributes, head.attributes);
    forall i | 0 <= i < |head.attributes|
      ensures ShapeValid(SplitShapes(head.shapes)[i])
    {
      assert IsCurtainShape(q, i, SplitShapes(head.shapes)[i]);
    }
  }

  lemma NoneFor(
    q: Plan.CurtainQuery, planned: seq<CurtainTask>, cols: seq<seq<Column>>, taskSize: nat, stores: string -> Store,
    a: string)
    requires CurtainQueryValid(q) && taskSize > 0 && !Recorded(q.manifest, a) && a != "data"
    requires AreCurtainTasks(planned, Volumes(q.manifest, q.attributes, |q.attributes|), PointsOf(q), cols)
    ensures forall j :: 0 <= j < |Bundles(planned, taskSize, stores)| ==>
              WritesFor(a, Bundles(planned, taskSize, stores)[j]) == []
  {
    forall i | 0 <= i < |planned|
      ensures planned[i].volume.attribute != a
    {
      NoVolume(q.manifest, q.attributes, a, i);
    }
    forall j | 0 <= j < |Bundles(planned, taskSize, stores)|
      ensures WritesFor(a, Bundles(planned, taskSize, stores)[j]) == []
    {
      NoBundleFor(planned, taskSize, stores, a, j);
    }
  }

  /** The attributes without a description keep their zeros. */
  lemma UnrecordedLeft(
    q: Plan.CurtainQuery, planned: seq<CurtainTask>, cols: seq<seq<Column>>, taskSize: nat, stores: string -> Store,
    head: Header, arrived: seq<Object>, w: Writers)
    requires CurtainQueryValid(q) && taskSize > 0 && AnnouncesCurtain(q, head) && AllocatedFor(head) == Some(w)
    requires AreCurtainTasks(planned, Volumes(q.manifest, q.attributes, |q.attributes|), PointsOf(q), cols)
    requires Permutation(arrived, Bundles(planned, taskSize, stores))
    requires forall k :: 0 <= k < |arrived| ==> Accepted(CurtainFunction, arrived[k], w)
    requires ExtractAll(CurtainFunction, arrived, w).Wrote?
    ensures UnrecordedZero(q.manifest, head, ExtractAll(CurtainFunction, arrived, w).writers)
  {
    AnnouncedProper(q, head);
    AcceptedArrived(CurtainFunction, arrived, Bundles(planned, taskSize, stores), w);
    forall k | 1 <= k < |head.attributes| && !Recorded(q.manifest, head.attributes[k])
      ensures Buffered(head.attributes, SplitShapes(head.shapes), k, ExtractAll(CurtainFunction, arrived, w).writers)
    {
      NoneFor(q, planned, cols, taskSize, stores, head.attributes[k]);
      LeftZero(CurtainFunction, head, Bundles(planned, taskSize, stores), arrived, w, k);
    }
  }

  /**
   * For every manifest, list of points, task size, and order in which the tasks
   * finish: the response decodes, and gives the requested traces.
   */
  lemma CurtainDecodes(
    q: Plan.CurtainQuery, planned: seq<CurtainTask>, cols: seq<seq<Column>>, taskSize: nat, cubes: string -> Cube,
    stores: string -> Store, arrived: seq<Object>, next: Unpacker, enc: Object -> seq<Byte>)
    requires Ready(q, planned, cols, cubes, stores) && taskSize > 0 && PrefixStable(next) && Encodes(enc, next)
    requires Permutation(arrived, Bundles(planned, taskSize, stores)) && |arrived| <= INT_MAX
    ensures Decodes(q, cubes, DecodeAll(next, Response(enc, CurtainHeader(q, |arrived|), arrived)))
    ensures Complete(next, Response(enc, CurtainHeader(q, |arrived|), arrived))
  {
    ArrivedAccepted(q, planned, cols, taskSize, cubes, stores, arrived);
    var bundles, head := Bundles(planned, taskSize, stores), CurtainHeader(q, |arrived|);
    var w := AllocatedFor(head).value;
    ExtractAllApplies(CurtainFunction, arrived, w);
    var writers := ExtractAll(CurtainFunction, arrived, w).writers;
    DecodeResponse(next, enc, head, arrived, writers);
    CurtainAnnounced(q, |arrived|);
    UnrecordedLeft(q, planned, cols, taskSize, stores, head, arrived, w);
    var vs := Volumes(q.manifest, q.attributes, |q.attributes|);
    forall i | 0 <= i < |vs|
      ensures Curtain(vs[i].Gvt()) && vs[i].attribute in writers
      ensures Contiguous(vs[i].Gvt(), PointsOf(q)) ==> Delivered(vs[i], PointsOf(q), cubes, writers)
    {
      assert AllottedFor(planned[i].volume, |q.dim0s|, w);
      PlannedTask(q, planned, cols, cubes, stores, i);
      var g, a := vs[i].Gvt(), vs[i].attribute;
      if Contiguous(g, PointsOf(q)) {
        BundlesCover(q, planned, cols, taskSize, cubes, stores, i);
        SameWrites(a, arrived, bundles);
        ExactCoverApplied(w[a], AllWritesFor(a, arrived), CurtainTarget(g, PointsOf(q), cubes(a)));
      }
    }
  }
}
