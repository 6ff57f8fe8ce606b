/**
 * From the traces of a survey to the answers of queries. What an upload leaves
 * in storage is what queries need, for a manifest that lists the lines of the
 * upload; so the samples a client decodes are those of the survey's traces.
 */
module SurveyAnswers {
  import opened Arith
  import opened Lists
  import opened Shapes
  import opened Strides
  import opened Geometry
  import opened Cells
  import opened Messages
  import opened ArrayTag
  import opened Decoder
  import opened Stream
  import opened Plan
  import opened CurtainPlan
  import opened Grouping
  import opened Survey
  import opened Upload
  import opened UploadRun
  import opened Queries
  import CurtainQuery
  import SliceQuery
  import SliceEndToEnd
  import CurtainEndToEnd
  import Distributed
  import WholeRun

  /** What was uploaded for the data, and for every attribute: the traces, and the files that were written. */
  datatype Filesets = Filesets(traces: string -> seq<Trace>, files: string -> seq<(Tuple, seq<Sample>)>)

  function CubesOf(m: Manifest, sets: Filesets): string -> Cube
    requires ManifestValid(m)
  {
    a => SurveyCube(sets.traces(a), |sets.traces(a)|, m.lineNumbers[0], m.lineNumbers[1])
  }

  function StoresOf(sets: Filesets): string -> Store {
    a => StoreOf(sets.files(a), |sets.files(a)|)
  }

  /** The geometry of the data: as many points as there are lines, in the fragments of the manifest. */
  function DataGvt(m: Manifest): Gvt
    requires ManifestValid(m)
  {
    Gvt([|m.lineNumbers[0]|, |m.lineNumbers[1]|, |m.lineNumbers[2]|], m.shape)
  }

  /** The geometry of an attribute: one point for every pair of lines, in its own tiles. */
  function TileGvt(m: Manifest, tiles: Tuple): Gvt
    requires ManifestValid(m)
  {
    Gvt([|m.lineNumbers[0]|, |m.lineNumbers[1]|, 1], tiles)
  }

  /** The files of the data, and of the named attributes that are recorded, are those of uploads with these lines. */
  ghost predicate InStorage(m: Manifest, names: seq<string>, sets: Filesets)
    requires ManifestValid(m)
  {
    && Uploaded(DataGvt(m), CubesOf(m, sets)("data"), sets.files("data"))
    && forall a, j: nat :: a in names && Describes(m, j, a) ==>
         Uploaded(TileGvt(m, m.attributes[j].shape), CubesOf(m, sets)(a), sets.files(a))
  }

  /** The geometry of an upload is that of the volume which the manifest describes. */
  lemma SameGeometry(m: Manifest, lines1: seq<LineNo>, lines2: seq<LineNo>, key3s: seq<int>)
    requires ManifestValid(m) && m.lineNumbers == [lines1, lines2, key3s]
    ensures DataVolume(m).Gvt() == DataGvt(m) == SurveyGvt(lines1, lines2, |key3s|, m.shape)
    ensures forall a: Attribute ::
              AttributeVolume(m, a).Gvt() == TileGvt(m, a.shape) == SurveyGvt(lines1, lines2, 1, a.shape)
  {}

  /** A volume of a query is the data, or a recorded attribute that is asked for. */
  lemma VolumeOf(m: Manifest, names: seq<string>, i: nat) returns (j: nat)
    requires ManifestValid(m) && i < |Volumes(m, names, |names|)|
    ensures var v := Volumes(m, names, |names|)[i];
            if i == 0 then v.attribute == "data" && v.Gvt() == DataGvt(m)
            else v.attribute in names && Describes(m, j, v.attribute) && v.Gvt() == TileGvt(m, m.attributes[j].shape)
  {
    VolumesPlanned(m, names, |names|);
    assert names[..|names|] == names;
    j := 0;
    if i > 0 {
      var vs := Volumes(m, names, |names|);
      assert AskedVolume(m, names, vs, i);
      j :| IsVolumeOf(m, vs, i, j) && m.attributes[j].kind in names && Describes(m, j, m.attributes[j].kind);
    }
  }

  /** Fragments, tiles and the plane of the data fit in an int. */
  predicate PlanesFit(m: Manifest, dim: nat)
    requires ManifestValid(m) && dim < 3
  {
    && Prod(m.shape) <= INT_MAX && Prod(Squeeze(DataGvt(m).cube, dim)) <= INT_MAX
    && forall j :: 0 <= j < |m.attributes| ==> Prod(m.attributes[j].shape) <= INT_MAX
  }

  /** The plane of an attribute is not larger than that of the data. */
  lemma FlatterPlane(a: nat, b: nat, c: nat, dim: nat)
    requires c > 0 && dim < 3
    ensures Prod(Squeeze([a, b, 1], dim)) <= Prod(Squeeze([a, b, c], dim))
  {
    if dim == 0 {
      assert Squeeze([a, b, 1], dim) == [b, 1] && Squeeze([a, b, c], dim) == [b, c];
      SliceEndToEnd.TwoSlots(b, 1);
      SliceEndToEnd.TwoSlots(b, c);
      MulMono(1, c, b);
    } else if dim == 1 {
      assert Squeeze([a, b, 1], dim) == [a, 1] && Squeeze([a, b, c], dim) == [a, c];
      SliceEndToEnd.TwoSlots(a, 1);
      SliceEndToEnd.TwoSlots(a, c);
      MulMono(1, c, a);
    } else {
      assert Squeeze([a, b, 1], dim) == [a, b] == Squeeze([a, b, c], dim);
    }
  }

  lemma SliceReady(q: Plan.SliceQuery, sets: Filesets)
    requires SliceQueryValid(q) && PlanesFit(q.manifest, q.dim) && InStorage(q.manifest, q.attributes, sets)
    ensures SliceEndToEnd.Ready(q, CubesOf(q.manifest, sets), StoresOf(sets))
  {
    var m, cubes := q.manifest, CubesOf(q.manifest, sets);
    var vs := Volumes(m, q.attributes, |q.attributes|);
    VolumesValid(m, q.attributes, |q.attributes|);
    FlatterPlane(|m.lineNumbers[0]|, |m.lineNumbers[1]|, |m.lineNumbers[2]|, q.dim);
    forall i | 0 <= i < |vs|
      ensures SliceEndToEnd.VolumeReady(vs[i], q.dim, cubes(vs[i].attribute), StoresOf(sets)(vs[i].attribute))
    {
      var j := VolumeOf(m, q.attributes, i);
      UploadStores(vs[i].Gvt(), cubes(vs[i].attribute), sets.files(vs[i].attribute));
    }
  }

  /** Fragments, tiles and the traces of that many rows fit in an int. */
  predicate TracesFit(m: Manifest, rows: nat)
    requires ManifestValid(m)
  {
    && Prod(m.shape) <= INT_MAX && |m.lineNumbers[2]| <= INT_MAX && rows * |m.lineNumbers[2]| <= INT_MAX
    && forall j :: 0 <= j < |m.attributes| ==> Prod(m.attributes[j].shape) <= INT_MAX
  }

  lemma CurtainReady(q: Plan.CurtainQuery, planned: seq<CurtainTask>, cols: seq<seq<Column>>, sets: Filesets)
    requires CurtainQueryValid(q) && TracesFit(q.manifest, |q.dim0s|) && InStorage(q.manifest, q.attributes, sets)
    requires AreCurtainTasks(planned, Volumes(q.manifest, q.attributes, |q.attributes|), PointsOf(q), cols)
    ensures CurtainEndToEnd.Ready(q, planned, cols, CubesOf(q.manifest, sets), StoresOf(sets))
  {
    var m, cubes := q.manifest, CubesOf(q.manifest, sets);
    var vs := Volumes(m, q.attributes, |q.attributes|);
    VolumesValid(m, q.attributes, |q.attributes|);
    MulMono(1, |m.lineNumbers[2]|, |q.dim0s|);
    forall i | 0 <= i < |vs|
      ensures CurtainEndToEnd.VolumeReady(vs[i], |q.dim0s|, cubes(vs[i].attribute), StoresOf(sets)(vs[i].attribute))
    {
      var j := VolumeOf(m, q.attributes, i);
      UploadStores(vs[i].Gvt(), cubes(vs[i].attribute), sets.files(vs[i].attribute));
    }
  }

  /*
   * What the samples of an answer are
   */

  /** Sample d of the last trace with the pair of lines, or zero when there is none. */
  function SampleOf(traces: seq<Trace>, key1: int, key2: int, d: nat): Sample {
    var t := Latest(traces, |traces|, key1, key2);
    if t.Some? && d < |t.value.values| then t.value.values[d] else 0
  }

  /** That is the sample of a trace after which none has the pair of lines, and zero when no trace has it. */
  lemma SampleIs(traces: seq<Trace>, key1: int, key2: int, d: nat)
    ensures forall m :: 0 <= m < |traces| && IsLast(traces, key1, key2, m) && d < |traces[m].values| ==>
              SampleOf(traces, key1, key2, d) == traces[m].values[d]
    ensures (forall m :: 0 <= m < |traces| ==> traces[m].key1 != key1 || traces[m].key2 != key2) ==>
              SampleOf(traces, key1, key2, d) == 0
  {
    LatestIs(traces, |traces|, key1, key2);
    if Latest(traces, |traces|, key1, key2).Some? {
      var m := LatestIsLast(traces, |traces|, key1, key2);
    }
  }

  predicate IsLast(traces: seq<Trace>, key1: int, key2: int, m: nat) {
    && m < |traces| && traces[m].key1 == key1 && traces[m].key2 == key2
    && forall l :: m < l < |traces| ==> traces[l].key1 != key1 || traces[l].key2 != key2
  }

  /** The lines of a point. */
  function LinesAt(lines: seq<seq<int>>, p: Point): (int, int) {
    if |lines| > 1 && p.0 < |lines[0]| && p.1 < |lines[1]| then (lines[0][p.0], lines[1][p.1]) else (0, 0)
  }

  lemma SurveySample(m: Manifest, sets: Filesets, a: string, p: Tuple)
    requires ManifestValid(m) && |p| == 3 && p[0] < |m.lineNumbers[0]| && p[1] < |m.lineNumbers[1]|
    ensures CubesOf(m, sets)(a)(p) == SampleOf(sets.traces(a), m.lineNumbers[0][p[0]], m.lineNumbers[1][p[1]], p[2])
  {}

  /** The array has zeros only. */
  ghost predicate IsZero(buffer: seq<Sample>, shape: seq<int>) {
    0 <= Samples(shape) && buffer == ZeroSamples(Samples(shape))
  }

  /*
   * Slices
   */

  /** At the place of point p in an array of the given shape is the sample of the trace with the point's lines. */
  predicate CellIs(
    buffer: seq<Sample>, shape: seq<int>, traces: seq<Trace>, lines: seq<seq<int>>, dim: nat, p: Tuple)
    requires |shape| == |p| == 3 && ShapeValid(shape) && dim < 3
    requires |lines| > 1 && p[0] < |lines[0]| && p[1] < |lines[1]|
  {
    var o := Offset(p[dim := 0], shape);
    o < |buffer| && buffer[o] == SampleOf(traces, lines[0][p[0]], lines[1][p[1]], p[2])
  }

  /** The array of the given shape is plane `no` in direction dim of the traces with the lines, down to the depth. */
  ghost predicate PlaneOfTraces(
    buffer: seq<Sample>, shape: seq<int>, traces: seq<Trace>, lines: seq<seq<int>>, depth: nat, dim: nat, no: nat)
  {
    && |shape| == 3 && ShapeValid(shape) && |buffer| == Samples(shape) && |lines| > 1 && dim < 3
    && forall p: Tuple :: InShape(p, [|lines[0]|, |lines[1]|, depth]) && p[dim] == no ==>
         CellIs(buffer, shape, traces, lines, dim, p)
  }

  lemma DeliveredPlane(
    m: Manifest, sets: Filesets, a: string, g: Gvt, dim: nat, no: nat, buffer: seq<Sample>, shape: seq<int>)
    requires ManifestValid(m) && Curtain(g) && dim < 3 && no < g.cube[dim]
    requires g.cube[0] == |m.lineNumbers[0]| && g.cube[1] == |m.lineNumbers[1]| && shape == g.cube[dim := 1]
    requires buffer == SliceQuery.PlaneTarget(g, dim, no, CubesOf(m, sets)(a))
    ensures PlaneOfTraces(buffer, shape, sets.traces(a), m.lineNumbers, g.cube[2], dim, no)
  {
    SliceEndToEnd.ShapeSamples(g.cube, shape, dim);
    assert [|m.lineNumbers[0]|, |m.lineNumbers[1]|, g.cube[2]] == g.cube;
    forall p: Tuple | InShape(p, g.cube) && p[dim] == no
      ensures CellIs(buffer, shape, sets.traces(a), m.lineNumbers, dim, p)
    {
      SliceQuery.PlaneAt(g, dim, no, CubesOf(m, sets)(a), p);
      OffsetFlattened(p, g.cube, dim);
      SurveySample(m, sets, a, p);
    }
  }

  /**
   * Output k of a slice, as the client sees it: the data, then the attributes
   * that were asked for. An attribute has one sample per trace, and zeros when
   * it is not recorded.
   */
  ghost predicate SliceArray(
    q: Plan.SliceQuery, sets: Filesets, a: string, shape: seq<int>, k: nat, writers: Writers)
    requires SliceQueryValid(q)
  {
    var m := q.manifest;
    a in writers &&
    if k == 0 then
      PlaneOfTraces(writers[a], shape, sets.traces(a), m.lineNumbers, |m.lineNumbers[2]|, q.dim, q.idx)
    else if Recorded(m, a) then
      PlaneOfTraces(writers[a], shape, sets.traces(a), m.lineNumbers, 1, q.dim, if q.dim == 2 then 0 else q.idx)
    else IsZero(writers[a], shape)
  }

  /** Every output that the header announces. */
  ghost predicate SliceAnswered(q: Plan.SliceQuery, sets: Filesets, head: Header, writers: Writers)
    requires SliceQueryValid(q)
  {
    AnnouncesSlice(q, head) &&
    var shapes := SplitShapes(head.shapes);
    forall k :: 0 <= k < |shapes| ==> SliceArray(q, sets, head.attributes[k], shapes[k], k, writers)
  }

  /**
   * A slice of an uploaded survey: whatever the machines do, and however the
   * response arrives, the client gets the data and every attribute that it
   * asked for, in arrays of the shapes that the header announces, and every
   * sample in them is that of the trace last uploaded with the lines of its
   * place; or the client knows that the response is incomplete.
   */
  lemma SurveySlice(
    q: Plan.SliceQuery, taskSize: nat, sets: Filesets, next: Unpacker, enc: Object -> seq<Byte>, caps: seq<nat>,
    others: WholeRun.Others, s: Distributed.State, k: nat)
    requires SliceQueryValid(q) && PlanesFit(q.manifest, q.dim) && InStorage(q.manifest, q.attributes, sets)
    requires taskSize > 0 && |SliceEndToEnd.Tasks(q, taskSize)| <= INT_MAX && PrefixStable(next) && Encodes(enc, next)
    requires Distributed.Reachable(WholeRun.SliceSystem(q, taskSize, StoresOf(sets), enc, caps, others), s)
    requires k <= |Flatten(s.emitted)|
    ensures var out := DecodeAll(next, Flatten(s.emitted)[..k]);
            WholeRun.KnownIncomplete(out) || (out.Decoded? && SliceAnswered(q, sets, out.header, out.writers))
    ensures s.collector.Closed? && k == |Flatten(s.emitted)| ==>
              !WholeRun.KnownIncomplete(DecodeAll(next, Flatten(s.emitted)[..k]))
  {
    var cubes, out := CubesOf(q.manifest, sets), DecodeAll(next, Flatten(s.emitted)[..k]);
    SliceReady(q, sets);
    WholeRun.SliceRun(q, taskSize, cubes, StoresOf(sets), next, enc, caps, others, s, k);
    if !WholeRun.KnownIncomplete(out) {
      PlanesAnswer(q, sets, out);
    }
  }

  lemma PlanesAnswer(q: Plan.SliceQuery, sets: Filesets, out: Outcome)
    requires SliceQueryValid(q) && SliceEndToEnd.Decodes(q, CubesOf(q.manifest, sets), out)
    ensures SliceAnswered(q, sets, out.header, out.writers)
  {
    var m, head, shapes := q.manifest, out.header, SplitShapes(out.header.shapes);
    var vs := Volumes(m, q.attributes, |q.attributes|);
    VolumesValid(m, q.attributes, |q.attributes|);
    forall k | 0 <= k < |shapes|
      ensures SliceArray(q, sets, head.attributes[k], shapes[k], k, out.writers)
    {
      assert IsSliceShape(q, k, shapes[k]);
      if k == 0 {
        assert SliceEndToEnd.Delivered(vs[0], q.dim, q.idx, CubesOf(m, sets), Wrote(out.writers));
        DataPlane(q, sets, out.writers, shapes[k]);
      } else if Recorded(m, head.attributes[k]) {
        var i, j := AttributeVolumeAt(m, q.attributes, head.attributes[k]);
        assert SliceEndToEnd.Delivered(vs[i], q.dim, q.idx, CubesOf(m, sets), Wrote(out.writers));
        AttributePlane(q, sets, out.writers, vs[i], j, k, shapes[k]);
      }
    }
  }

  lemma DataPlane(q: Plan.SliceQuery, sets: Filesets, writers: Writers, shape: seq<int>)
    requires SliceQueryValid(q) && IsSliceShape(q, 0, shape)
    requires SliceEndToEnd.Delivered(DataVolume(q.manifest), q.dim, q.idx, CubesOf(q.manifest, sets), Wrote(writers))
    ensures SliceArray(q, sets, "data", shape, 0, writers)
  {
    var g := DataGvt(q.manifest);
    assert shape == g.cube[q.dim := 1];
    DeliveredPlane(q.manifest, sets, "data", g, q.dim, q.idx, writers["data"], shape);
  }

  lemma AttributePlane(
    q: Plan.SliceQuery, sets: Filesets, writers: Writers, v: Volume, j: nat, k: nat, shape: seq<int>)
    requires SliceQueryValid(q) && k > 0 && IsSliceShape(q, k, shape)
    requires Describes(q.manifest, j, v.attribute) && v.Gvt() == TileGvt(q.manifest, q.manifest.attributes[j].shape)
    requires SliceEndToEnd.Delivered(v, q.dim, q.idx, CubesOf(q.manifest, sets), Wrote(writers))
    ensures SliceArray(q, sets, v.attribute, shape, k, writers)
  {
    var g := v.Gvt();
    var no := if q.dim == 2 then 0 else q.idx;
    assert shape == g.cube[q.dim := 1];
    assert Coerced(v, q.dim, q.idx) == no;
    DeliveredPlane(q.manifest, sets, v.attribute, g, q.dim, no, writers[v.attribute], shape);
  }

  /** An attribute that is asked for and recorded is among the volumes. */
  lemma AttributeVolumeAt(m: Manifest, names: seq<string>, a: string) returns (i: nat, j: nat)
    requires ManifestValid(m) && a in names && Recorded(m, a)
    ensures i < |Volumes(m, names, |names|)| && Describes(m, j, a)
    ensures Volumes(m, names, |names|)[i].attribute == a
    ensures Volumes(m, names, |names|)[i].Gvt() == TileGvt(m, m.attributes[j].shape)
  {
    VolumesPlanned(m, names, |names|);
    assert names[..|names|] == names;
    j := FirstDescription(m, a);
    var vs := Volumes(m, names, |names|);
    assert HasVolume(m, vs, j);
    i :| IsVolumeOf(m, vs, i, j);
  }

  /*
   * Curtains
   */

  /** In an array of the given shape, sample d of row r is that of the trace with the lines. */
  predicate RowIs(buffer: seq<Sample>, shape: seq<int>, traces: seq<Trace>, lines: (int, int), r: nat, d: nat)
    requires ShapeValid(shape) && 1 <= |shape| <= 2
  {
    var o := Offset(if |shape| == 2 then [r, d] else [r], shape);
    o < |buffer| && buffer[o] == SampleOf(traces, lines.0, lines.1, d)
  }

  /** The array of the given shape has in row r the trace with the lines of the r-th point, down to the depth. */
  ghost predicate RowsAreTraces(
    buffer: seq<Sample>, shape: seq<int>, traces: seq<Trace>, lines: seq<seq<int>>, pts: seq<Point>, depth: nat)
  {
    && 1 <= |shape| <= 2 && ShapeValid(shape) && |buffer| == Samples(shape)
    && forall r: nat, d: nat :: r < |pts| && d < depth ==> RowIs(buffer, shape, traces, LinesAt(lines, pts[r]), r, d)
  }

  /** The place of a sample in an array of rows, and in an array of one sample for every row. */
  lemma RowPlace(rows: nat, depth: nat, shape: seq<int>, r: nat, d: nat)
    requires shape == [rows, depth] || (shape == [rows] && depth == 1 && d == 0)
    ensures ShapeValid(shape) && Samples(shape) == rows * depth
    ensures Offset(if |shape| == 2 then [r, d] else [r], shape) == r * depth + d
  {
    if |shape| == 2 {
      Two(r, d, rows, depth);
      assert [rows, depth][1..] == [depth] && [depth][1..] == [];
      assert Samples([depth]) == depth;
    } else {
      OneSlot(r, rows);
      assert [rows][1..] == [];
    }
  }

  lemma DeliveredRows(
    q: Plan.CurtainQuery, sets: Filesets, a: string, g: Gvt, buffer: seq<Sample>, shape: seq<int>)
    requires CurtainQueryValid(q) && Curtain(g)
    requires shape == [|q.dim0s|, g.cube[2]] || (shape == [|q.dim0s|] && g.cube[2] == 1)
    requires buffer == CurtainQuery.CurtainTarget(g, PointsOf(q), CubesOf(q.manifest, sets)(a))
    ensures RowsAreTraces(buffer, shape, sets.traces(a), q.manifest.lineNumbers, PointsOf(q), g.cube[2])
  {
    var pts := PointsOf(q);
    RowPlace(|pts|, g.cube[2], shape, 0, 0);
    forall r: nat, d: nat | r < |pts| && d < g.cube[2]
      ensures RowIs(buffer, shape, sets.traces(a), LinesAt(q.manifest.lineNumbers, pts[r]), r, d)
    {
      RowPlace(|pts|, g.cube[2], shape, r, d);
      CurtainQuery.TargetAt(g, pts, CubesOf(q.manifest, sets)(a), r, d);
      assert pts[r].0 == q.dim0s[r] && pts[r].1 == q.dim1s[r];
      SurveySample(q.manifest, sets, a, [pts[r].0, pts[r].1, d]);
    }
  }

  /** The points are contiguous for the tiles of an attribute. */
  ghost predicate GroupedTiles(m: Manifest, tiles: Tuple, pts: seq<Point>)
    requires ManifestValid(m)
  {
    Curtain(TileGvt(m, tiles)) && Contiguous(TileGvt(m, tiles), pts)
  }

  /**
   * Output k of a curtain, as the client sees it: the data, then the attributes
   * that were asked for. An attribute has one sample per row when the points
   * are contiguous for its tiles, and zeros when it is not recorded.
   */
  ghost predicate CurtainArray(
    q: Plan.CurtainQuery, sets: Filesets, a: string, shape: seq<int>, k: nat, writers: Writers)
    requires CurtainQueryValid(q)
  {
    var m, pts := q.manifest, PointsOf(q);
    a in writers &&
    if k == 0 then RowsAreTraces(writers[a], shape, sets.traces(a), m.lineNumbers, pts, |m.lineNumbers[2]|)
    else if Recorded(m, a) then
      forall j: nat :: Describes(m, j, a) && GroupedTiles(m, m.attributes[j].shape, pts) ==>
        RowsAreTraces(writers[a], shape, sets.traces(a), m.lineNumbers, pts, 1)
    else IsZero(writers[a], shape)
  }

  /** Every output that the header announces. */
  ghost predicate CurtainAnswered(q: Plan.CurtainQuery, sets: Filesets, head: Header, writers: Writers)
    requires CurtainQueryValid(q)
  {
    AnnouncesCurtain(q, head) &&
    var shapes := SplitShapes(head.shapes);
    forall k :: 0 <= k < |shapes| ==> CurtainArray(q, sets, head.attributes[k], shapes[k], k, writers)
  }

  /**
   * A curtain of an uploaded survey: whatever the machines do, and however the
   * response arrives, the client gets for every point the trace that was last
   * uploaded with the lines of the point, in an array of the shape that the
   * header announces, or knows that the response is incomplete. The same holds
   * for every attribute that it asked for whose tiles keep the points together.
   */
  lemma SurveyCurtain(
    q: Plan.CurtainQuery, pts: seq<Point>, planned: seq<CurtainTask>, cols: seq<seq<Column>>, taskSize: nat,
    sets: Filesets, next: Unpacker, enc: Object -> seq<Byte>, caps: seq<nat>, others: WholeRun.Others,
    s: Distributed.State, k: nat)
    requires CurtainQueryValid(q) && TracesFit(q.manifest, |q.dim0s|) && InStorage(q.manifest, q.attributes, sets)
    requires AreCurtainTasks(planned, Volumes(q.manifest, q.attributes, |q.attributes|), PointsOf(q), cols)
    requires taskSize > 0 && |CurtainEndToEnd.Tasks(planned, taskSize)| <= INT_MAX
    requires WholeRun.GroupedQuery(q, pts) && PrefixStable(next) && Encodes(enc, next)
    requires Distributed.Reachable(
               WholeRun.CurtainSystem(q, planned, taskSize, StoresOf(sets), enc, caps, others), s)
    requires k <= |Flatten(s.emitted)|
    ensures var out := DecodeAll(next, Flatten(s.emitted)[..k]);
            WholeRun.KnownIncomplete(out) || (out.Decoded? && CurtainAnswered(q, sets, out.header, out.writers))
    ensures s.collector.Closed? && k == |Flatten(s.emitted)| ==>
              !WholeRun.KnownIncomplete(DecodeAll(next, Flatten(s.emitted)[..k]))
  {
    var cubes := CubesOf(q.manifest, sets);
    CurtainReady(q, planned, cols, sets);
    WholeRun.CurtainRun(q, pts, planned, cols, taskSize, cubes, StoresOf(sets), next, enc, caps, others, s, k);
    CurtainOutcome(q, sets, DecodeAll(next, Flatten(s.emitted)[..k]));
  }

  lemma CurtainOutcome(q: Plan.CurtainQuery, sets: Filesets, out: Outcome)
    requires CurtainQueryValid(q)
    requires WholeRun.KnownIncomplete(out) || WholeRun.CurtainAnswered(q, CubesOf(q.manifest, sets), out)
    ensures WholeRun.KnownIncomplete(out) || (out.Decoded? && CurtainAnswered(q, sets, out.header, out.writers))
    ensures WholeRun.CurtainAnswered(q, CubesOf(q.manifest, sets), out) ==> !WholeRun.KnownIncomplete(out)
  {
    if !WholeRun.KnownIncomplete(out) {
      TracesAnswer(q, sets, out);
    }
  }

  lemma TracesAnswer(q: Plan.CurtainQuery, sets: Filesets, out: Outcome)
    requires CurtainQueryValid(q) && WholeRun.CurtainAnswered(q, CubesOf(q.manifest, sets), out)
    ensures CurtainAnswered(q, sets, out.header, out.writers)
  {
    var m, head, shapes := q.manifest, out.header, SplitShapes(out.header.shapes);
    forall k | 0 <= k < |shapes|
      ensures CurtainArray(q, sets, head.attributes[k], shapes[k], k, out.writers)
    {
      assert IsCurtainShape(q, k, shapes[k]);
      if k == 0 {
        DeliveredRows(q, sets, "data", DataGvt(m), out.writers["data"], shapes[k]);
      } else if Recorded(m, head.attributes[k]) {
        var i, j := AttributeVolumeAt(m, q.attributes, head.attributes[k]);
        AttributeRows(q, sets, out.writers, Volumes(m, q.attributes, |q.attributes|)[i], j, k, shapes[k]);
      }
    }
  }

  lemma AttributeRows(
    q: Plan.CurtainQuery, sets: Filesets, writers: Writers, v: Volume, j: nat, k: nat, shape: seq<int>)
    requires CurtainQueryValid(q) && k > 0 && IsCurtainShape(q, k, shape) && v.attribute in writers
    requires Describes(q.manifest, j, v.attribute) && v.Gvt() == TileGvt(q.manifest, q.manifest.attributes[j].shape)
    requires Curtain(v.Gvt())
    requires Contiguous(v.Gvt(), PointsOf(q)) ==>
               CurtainEndToEnd.Delivered(v, PointsOf(q), CubesOf(q.manifest, sets), writers)
    ensures CurtainArray(q, sets, v.attribute, shape, k, writers)
  {
    if Contiguous(v.Gvt(), PointsOf(q)) {
      DeliveredRows(q, sets, v.attribute, v.Gvt(), writers[v.attribute], shape);
    }
    forall l: nat | Describes(q.manifest, l, v.attribute)
      ensures l == j
    {}
  }

  /** The pair of lines that a coordinate asks for. */
  function PairOf(pair: seq<int>): (int, int) {
    if |pair| == 2 then (pair[0], pair[1]) else (0, 0)
  }

  lemma PointLines(m: Manifest, affine: Option<Affine>, pairs: seq<seq<int>>, pts: seq<Point>)
    requires ManifestValid(m) && MeansAll(m, affine, Lines(pairs), |pairs|, pts)
    ensures Map((p: Point) => LinesAt(m.lineNumbers, p), pts) == Map(PairOf, pairs)
  {
    forall i | 0 <= i < |pts|
      ensures LinesAt(m.lineNumbers, pts[i]) == PairOf(pairs[i])
    {
      assert Means(m, affine, Lines(pairs), i, pts[i]);
    }
  }

  /** The lines that are asked for are those of the rows, each as often as it is asked for. */
  lemma AskedLines(q: Plan.CurtainQuery, pts: seq<Point>, pairs: seq<seq<int>>, affine: Option<Affine>)
    requires CurtainQueryValid(q) && WholeRun.GroupedQuery(q, pts)
    requires MeansAll(q.manifest, affine, Lines(pairs), |pairs|, pts)
    ensures Permutation(Map((p: Point) => LinesAt(q.manifest.lineNumbers, p), PointsOf(q)), Map(PairOf, pairs))
  {
    GroupedOrdered(DataVolume(q.manifest).Gvt(), pts);
    MapPermutation((p: Point) => LinesAt(q.manifest.lineNumbers, p), PointsOf(q), pts);
    PointLines(q.manifest, affine, pairs, pts);
  }
}
