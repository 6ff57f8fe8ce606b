/**
 * Planning a query (core/src/plan.cpp): one task for the data and one for every
 * recorded attribute, cut in parts, and a header that announces how many.
 */
module Plan {
  import opened Arith
  import opened Lists
  import opened Shapes
  import opened Strides
  import opened Messages
  import opened CurtainPlan
  import Stream

  datatype Attribute = Attribute(kind: string, shape: Tuple)

  datatype Manifest = Manifest(shape: Tuple, attributes: seq<Attribute>, lineNumbers: seq<seq<int>>)

  /** Three non-empty dimensions, and positive fragment shapes. */
  predicate ManifestValid(m: Manifest) {
    && |m.lineNumbers| == 3 && (forall d :: 0 <= d < 3 ==> |m.lineNumbers[d]| > 0)
    && |m.shape| == 3 && Positive(m.shape)
    && forall i :: 0 <= i < |m.attributes| ==> |m.attributes[i].shape| == 3 && Positive(m.attributes[i].shape)
  }

  /** The attributes are normalized: without repetitions, and the data is not one of them. */
  predicate Normalized(attributes: seq<string>) {
    && (forall i, j :: 0 <= i < j < |attributes| ==> attributes[i] != attributes[j])
    && forall i :: 0 <= i < |attributes| ==> attributes[i] != "data"
  }

  function CubeShape(m: Manifest): (r: Tuple)
    requires ManifestValid(m)
    ensures |r| == 3 && Positive(r)
  {
    [|m.lineNumbers[0]|, |m.lineNumbers[1]|, |m.lineNumbers[2]|]
  }

  function DataVolume(m: Manifest): Volume
    requires ManifestValid(m)
  {
    Volume("data", m.shape, CubeShape(m))
  }

  /** An attribute is a cube of one sample per trace. */
  function AttributeVolume(m: Manifest, a: Attribute): Volume
    requires ManifestValid(m)
  {
    Volume(a.kind, a.shape, CubeShape(m)[2 := 1])
  }

  /** The basic_task constructors: the sizes of the dimensions, the last one overwritten for attributes. */
  method TaskVolume(m: Manifest, a: Option<Attribute>) returns (v: Volume)
    requires ManifestValid(m)
    ensures v == if a.None? then DataVolume(m) else AttributeVolume(m, a.value)
    ensures v.shapeCube
            == [|m.lineNumbers[0]|, |m.lineNumbers[1]|, if a.None? then |m.lineNumbers[2]| else 1]
    ensures v.attribute == (if a.None? then "data" else a.value.kind)
    ensures v.shape == if a.None? then m.shape else a.value.shape
  {
    var shapeCube: Tuple := [];
    for d := 0 to |m.lineNumbers|
      invariant shapeCube == CubeShape(m)[..d]
    {
      shapeCube := shapeCube + [|m.lineNumbers[d]|];
    }
    if a.None? {
      return Volume("data", m.shape, shapeCube);
    }
    shapeCube := shapeCube[|shapeCube| - 1 := 1];
    return Volume(a.value.kind, a.value.shape, shapeCube);
  }

  /** The first description of an attribute, from position i on. */
  function Lookup(attributes: seq<Attribute>, kind: string, i: nat): Option<Attribute>
    requires i <= |attributes|
    decreases |attributes| - i
  {
    if i == |attributes| then None
    else if attributes[i].kind == kind then Some(attributes[i])
    else Lookup(attributes, kind, i + 1)
  }

  method FindAttribute(m: Manifest, kind: string) returns (a: Option<Attribute>)
    ensures a == Lookup(m.attributes, kind, 0)
    ensures a.Some? ==> a.value in m.attributes && a.value.kind == kind
    ensures a.None? <==> forall i :: 0 <= i < |m.attributes| ==> m.attributes[i].kind != kind
  {
    var i := 0;
    while i < |m.attributes| && m.attributes[i].kind != kind
      invariant i <= |m.attributes|
      invariant Lookup(m.attributes, kind, 0) == Lookup(m.attributes, kind, i)
      invariant forall j :: 0 <= j < i ==> m.attributes[j].kind != kind
    {
      i := i + 1;
    }
    a := if i < |m.attributes| then Some(m.attributes[i]) else None;
  }

  /** The volumes a query reads: the data, and those of the first n attributes that are recorded. */
  function Volumes(m: Manifest, attributes: seq<string>, n: nat): seq<Volume>
    requires ManifestValid(m) && n <= |attributes|
  {
    if n == 0 then [DataVolume(m)]
    else
      Volumes(m, attributes, n - 1)
      + match Lookup(m.attributes, attributes[n - 1], 0)
        case None => []
        case Some(a) => [AttributeVolume(m, a)]
  }

  /** Description j is the first of its kind. */
  predicate Describes(m: Manifest, j: nat, kind: string) {
    && j < |m.attributes| && m.attributes[j].kind == kind
    && forall i :: 0 <= i < j ==> m.attributes[i].kind != kind
  }

  /** The manifest has a description of the attribute. */
  predicate Recorded(m: Manifest, kind: string) {
    exists j :: 0 <= j < |m.attributes| && m.attributes[j].kind == kind
  }

  lemma FirstDescription(m: Manifest, kind: string) returns (j: nat)
    requires Recorded(m, kind)
    ensures Describes(m, j, kind)
  {
    j := 0;
    while m.attributes[j].kind != kind
      invariant j < |m.attributes| && forall i :: 0 <= i < j ==> m.attributes[i].kind != kind
      decreases |m.attributes| - j
    {
      j := j + 1;
    }
  }

  /** Volume i is the attribute of description j: a cube of one sample per trace, in the tiles of the description. */
  predicate IsVolumeOf(m: Manifest, vs: seq<Volume>, i: nat, j: nat) {
    && 1 <= i < |vs| && j < |m.attributes| && |m.lineNumbers| > 1
    && vs[i] == Volume(m.attributes[j].kind, m.attributes[j].shape, [|m.lineNumbers[0]|, |m.lineNumbers[1]|, 1])
  }

  ghost predicate HasVolume(m: Manifest, vs: seq<Volume>, j: nat) {
    exists i: nat :: IsVolumeOf(m, vs, i, j)
  }

  ghost predicate AskedVolume(m: Manifest, attributes: seq<string>, vs: seq<Volume>, i: nat) {
    exists j: nat :: IsVolumeOf(m, vs, i, j) && m.attributes[j].kind in attributes
                     && Describes(m, j, m.attributes[j].kind)
  }

  /** The data, and precisely those attributes that are both asked for and recorded. */
  ghost predicate PlansAll(m: Manifest, attributes: seq<string>, vs: seq<Volume>)
    requires ManifestValid(m)
  {
    && |vs| > 0
    && vs[0] == Volume("data", m.shape, [|m.lineNumbers[0]|, |m.lineNumbers[1]|, |m.lineNumbers[2]|])
    && (forall a, j: nat :: a in attributes && Describes(m, j, a) ==> HasVolume(m, vs, j))
    && forall i: nat :: 1 <= i < |vs| ==> AskedVolume(m, attributes, vs, i)
  }

  lemma {:induction false} LookupFirst(m: Manifest, kind: string, i: nat, j: nat)
    requires i <= j && Describes(m, j, kind)
    ensures Lookup(m.attributes, kind, i) == Some(m.attributes[j])
    decreases j - i
  {
    if i < j {
      LookupFirst(m, kind, i + 1, j);
    }
  }

  lemma {:induction false} LookupNone(attributes: seq<Attribute>, kind: string, i: nat)
    requires i <= |attributes|
    ensures Lookup(attributes, kind, i).None? <==> forall k :: i <= k < |attributes| ==> attributes[k].kind != kind
    decreases |attributes| - i
  {
    if i < |attributes| {
      LookupNone(attributes, kind, i + 1);
    }
  }

  /** One more attribute that is asked for, without a description. */
  lemma PlansUnrecorded(m: Manifest, attributes: seq<string>, vs: seq<Volume>, a: string)
    requires ManifestValid(m) && PlansAll(m, attributes, vs) && !Recorded(m, a)
    ensures PlansAll(m, attributes + [a], vs)
  {
    forall i: nat | 1 <= i < |vs|
      ensures AskedVolume(m, attributes + [a], vs, i)
    {
      assert AskedVolume(m, attributes, vs, i);
      var j: nat :| IsVolumeOf(m, vs, i, j) && m.attributes[j].kind in attributes
                    && Describes(m, j, m.attributes[j].kind);
    }
  }

  /** One more attribute that is asked for, with a description. */
  lemma PlansRecorded(m: Manifest, attributes: seq<string>, vs: seq<Volume>, a: string, j: nat)
    requires ManifestValid(m) && PlansAll(m, attributes, vs) && Describes(m, j, a)
    ensures PlansAll(m, attributes + [a], vs + [AttributeVolume(m, m.attributes[j])])
  {
    var more := vs + [AttributeVolume(m, m.attributes[j])];
    assert IsVolumeOf(m, more, |vs|, j);
    forall b, k: nat | b in attributes + [a] && Describes(m, k, b)
      ensures HasVolume(m, more, k)
    {
      if b == a {
        assert k == j;
      } else {
        var i: nat :| IsVolumeOf(m, vs, i, k);
        assert IsVolumeOf(m, more, i, k);
      }
    }
    forall i: nat | 1 <= i < |more|
      ensures AskedVolume(m, attributes + [a], more, i)
    {
      if i < |vs| {
        assert AskedVolume(m, attributes, vs, i);
        var k: nat :| IsVolumeOf(m, vs, i, k) && m.attributes[k].kind in attributes
                      && Describes(m, k, m.attributes[k].kind);
        assert IsVolumeOf(m, more, i, k);
      }
    }
  }

  /** No attribute that is recorded is left out of a plan, and no other is in it. */
  lemma {:induction false} VolumesPlanned(m: Manifest, attributes: seq<string>, n: nat)
    requires ManifestValid(m) && n <= |attributes|
    ensures PlansAll(m, attributes[..n], Volumes(m, attributes, n))
  {
    if n > 0 {
      VolumesPlanned(m, attributes, n - 1);
      var a := attributes[n - 1];
      assert attributes[..n] == attributes[..n - 1] + [a];
      if Recorded(m, a) {
        var j := FirstDescription(m, a);
        LookupFirst(m, a, 0, j);
        PlansRecorded(m, attributes[..n - 1], Volumes(m, attributes, n - 1), a, j);
      } else {
        LookupNone(m.attributes, a, 0);
        PlansUnrecorded(m, attributes[..n - 1], Volumes(m, attributes, n - 1), a);
        assert Volumes(m, attributes, n) == Volumes(m, attributes, n - 1);
      }
    }
  }

  /** An attribute without a description has no volume. */
  lemma NoVolume(m: Manifest, attributes: seq<string>, a: string, i: nat)
    requires ManifestValid(m) && !Recorded(m, a) && a != "data" && i < |Volumes(m, attributes, |attributes|)|
    ensures Volumes(m, attributes, |attributes|)[i].attribute != a
  {
    VolumesPlanned(m, attributes, |attributes|);
    assert attributes[..|attributes|] == attributes;
    assert i == 0 || AskedVolume(m, attributes, Volumes(m, attributes, |attributes|), i);
  }

  method BuildVolumes(m: Manifest, attributes: seq<string>) returns (vs: seq<Volume>)
    requires ManifestValid(m)
    ensures vs == Volumes(m, attributes, |attributes|) && PlansAll(m, attributes, vs)
  {
    VolumesPlanned(m, attributes, |attributes|);
    assert attributes[..|attributes|] == attributes;
    var data := TaskVolume(m, None);
    vs := [data];
    for i := 0 to |attributes|
      invariant vs == Volumes(m, attributes, i)
    {
      var found := FindAttribute(m, attributes[i]);
      if found.None? {
        continue;
      }
      var v := TaskVolume(m, found);
      vs := vs + [v];
    }
  }

  lemma {:induction false} LookupValid(attributes: seq<Attribute>, kind: string, i: nat)
    requires i <= |attributes| && Lookup(attributes, kind, i).Some?
    ensures Lookup(attributes, kind, i).value in attributes
    ensures Lookup(attributes, kind, i).value.kind == kind
    decreases |attributes| - i
  {
    if attributes[i].kind != kind {
      LookupValid(attributes, kind, i + 1);
    }
  }

  /** The data first, and then named attributes with one sample per trace, each once, with proper geometries. */
  ghost predicate ProperVolumes(m: Manifest, names: seq<string>, vs: seq<Volume>)
    requires ManifestValid(m)
  {
    && |vs| > 0 && vs[0] == DataVolume(m)
    && (forall i :: 0 <= i < |vs| ==> Curtain(vs[i].Gvt()))
    && (forall i :: 0 <= i < |vs| ==>
          vs[i].shapeCube[0] == |m.lineNumbers[0]| && vs[i].shapeCube[1] == |m.lineNumbers[1]|)
    && (forall i :: 1 <= i < |vs| ==> vs[i].shapeCube[2] == 1)
    && (forall i :: 1 <= i < |vs| ==> vs[i].attribute in names)
    && (forall i, j :: 0 <= i < j < |vs| ==> vs[i].attribute != vs[j].attribute)
  }

  lemma OneMoreVolume(m: Manifest, names: seq<string>, before: seq<Volume>, a: Attribute)
    requires ManifestValid(m) && a in m.attributes && ProperVolumes(m, names, before)
    requires a.kind !in names && a.kind != "data"
    ensures ProperVolumes(m, names + [a.kind], before + [AttributeVolume(m, a)])
  {
    forall i | 0 <= i < |before|
      ensures before[i].attribute != a.kind
    {
      assert i == 0 || before[i].attribute in names;
    }
  }

  /** All volumes are proper geometries, and no two are of the same attribute. */
  lemma {:induction false} VolumesValid(m: Manifest, attributes: seq<string>, n: nat)
    requires ManifestValid(m) && Normalized(attributes) && n <= |attributes|
    ensures ProperVolumes(m, attributes[..n], Volumes(m, attributes, n))
  {
    if n > 0 {
      VolumesValid(m, attributes, n - 1);
      assert attributes[..n] == attributes[..n - 1] + [attributes[n - 1]];
      var a := Lookup(m.attributes, attributes[n - 1], 0);
      if a.Some? {
        LookupValid(m.attributes, attributes[n - 1], 0);
        OneMoreVolume(m, attributes[..n - 1], Volumes(m, attributes, n - 1), a.value);
      }
    }
  }

  /*
   * Slices
   */

  datatype SliceQuery = SliceQuery(manifest: Manifest, attributes: seq<string>, dim: nat, idx: nat)

  predicate SliceQueryValid(q: SliceQuery) {
    && ManifestValid(q.manifest) && Normalized(q.attributes)
    && q.dim < 3 && q.idx < |q.manifest.lineNumbers[q.dim]|
  }

  /** The index of the plane in a volume: zero when the volume is flat in that direction. */
  function Coerced(v: Volume, dim: nat, idx: nat): (r: nat)
    requires Curtain(v.Gvt()) && dim < 3
    ensures r < v.shapeCube[dim]
    ensures idx < v.shapeCube[dim] ==> r == idx
  {
    DivMod(idx, v.shapeCube[dim]);
    if idx < v.shapeCube[dim] then DivModUnique(idx, v.shapeCube[dim], 0, idx); idx % v.shapeCube[dim]
    else idx % v.shapeCube[dim]
  }

  function SliceTaskOf(v: Volume, dim: nat, idx: nat): SliceTask
    requires Curtain(v.Gvt()) && dim < 3
  {
    DivMod(Coerced(v, dim, idx), v.shape[dim]);
    SliceTask(v, dim, Coerced(v, dim, idx) % v.shape[dim], PlaneFragments(v.Gvt(), dim, Coerced(v, dim, idx)))
  }

  function SliceTasks(vs: seq<Volume>, dim: nat, idx: nat): (r: seq<SliceTask>)
    requires dim < 3 && forall i :: 0 <= i < |vs| ==> Curtain(vs[i].Gvt())
    ensures |r| == |vs|
  {
    seq(|vs|, i requires 0 <= i < |vs| => SliceTaskOf(vs[i], dim, idx))
  }

  method BuildSlice(q: SliceQuery) returns (tasks: seq<SliceTask>)
    requires SliceQueryValid(q)
    ensures forall i :: 0 <= i < |Volumes(q.manifest, q.attributes, |q.attributes|)| ==>
              Curtain(Volumes(q.manifest, q.attributes, |q.attributes|)[i].Gvt())
    ensures tasks == SliceTasks(Volumes(q.manifest, q.attributes, |q.attributes|), q.dim, q.idx)
    ensures PlansAll(q.manifest, q.attributes, Map((t: SliceTask) => t.volume, tasks))
  {
    VolumesValid(q.manifest, q.attributes, |q.attributes|);
    var vs := BuildVolumes(q.manifest, q.attributes);
    tasks := [];
    for i := 0 to |vs|
      invariant tasks == SliceTasks(vs, q.dim, q.idx)[..i]
    {
      var g := vs[i].Gvt();
      var idx := Coerced(vs[i], q.dim, q.idx);
      var ids := Slice(g, q.dim, idx);
      DivMod(idx, g.frag[q.dim]);
      tasks := tasks + [SliceTask(vs[i], q.dim, idx % g.frag[q.dim], ids.value)];
    }
    assert Map((t: SliceTask) => t.volume, tasks) == vs;
  }

  /*
   * Curtains
   */

  datatype CurtainQuery = CurtainQuery(manifest: Manifest, attributes: seq<string>, dim0s: seq<nat>, dim1s: seq<nat>)

  predicate CurtainQueryValid(q: CurtainQuery) {
    && ManifestValid(q.manifest) && Normalized(q.attributes) && |q.dim0s| == |q.dim1s|
    && (forall i :: 0 <= i < |q.dim0s| ==> q.dim0s[i] < |q.manifest.lineNumbers[0]|)
    && (forall i :: 0 <= i < |q.dim1s| ==> q.dim1s[i] < |q.manifest.lineNumbers[1]|)
  }

  function PointsOf(q: CurtainQuery): (r: seq<Point>)
    requires |q.dim0s| == |q.dim1s|
    ensures |r| == |q.dim0s|
  {
    seq(|q.dim0s|, i requires 0 <= i < |q.dim0s| => (q.dim0s[i], q.dim1s[i]))
  }

  /** A task with all fragments of the points' columns in a volume. */
  ghost predicate IsCurtainTask(task: CurtainTask, v: Volume, pts: seq<Point>, cols: seq<Column>) {
    && task.volume == v && Curtain(v.Gvt())
    && IsColumns(v.Gvt(), pts, |pts|, cols)
    && task.ids == Expand(cols, v.Gvt().FragmentCount(2))
  }

  ghost predicate AreCurtainTasks(tasks: seq<CurtainTask>, vs: seq<Volume>, pts: seq<Point>, cols: seq<seq<Column>>) {
    CurtainTasksTo(tasks, vs, pts, cols, |vs|)
  }

  method BuildCurtain(q: CurtainQuery) returns (tasks: seq<CurtainTask>, ghost cols: seq<seq<Column>>)
    requires CurtainQueryValid(q)
    ensures AreCurtainTasks(tasks, Volumes(q.manifest, q.attributes, |q.attributes|), PointsOf(q), cols)
    ensures PlansAll(q.manifest, q.attributes, Map((t: CurtainTask) => t.volume, tasks))
  {
    var vs := BuildVolumes(q.manifest, q.attributes);
    forall i | 0 <= i < |vs|
      ensures InVolume(vs[i], PointsOf(q))
    {
      PointsInVolume(q, i);
    }
    tasks, cols := BuildCurtainTasks(vs, PointsOf(q));
    assert Map((t: CurtainTask) => t.volume, tasks) == vs;
  }

  predicate InVolume(v: Volume, pts: seq<Point>) {
    Curtain(v.Gvt()) && PointsIn(v.Gvt(), pts)
  }

  method BuildCurtainTasks(vs: seq<Volume>, pts: seq<Point>)
    returns (tasks: seq<CurtainTask>, ghost cols: seq<seq<Column>>)
    requires forall i :: 0 <= i < |vs| ==> InVolume(vs[i], pts)
    ensures AreCurtainTasks(tasks, vs, pts, cols)
  {
    tasks, cols := [], [];
    for i := 0 to |vs|
      invariant CurtainTasksTo(tasks, vs, pts, cols, i)
    {
      assert InVolume(vs[i], pts);
      var task, c := BuildCurtainTask(vs[i], pts);
      OneMoreTask(tasks, vs, pts, cols, i, task, c);
      tasks, cols := tasks + [task], cols + [c];
    }
  }

  /** The tasks of the first n volumes. */
  ghost predicate CurtainTasksTo(
    tasks: seq<CurtainTask>, vs: seq<Volume>, pts: seq<Point>, cols: seq<seq<Column>>, n: nat)
  {
    |tasks| == |cols| == n <= |vs| && forall k :: 0 <= k < n ==> IsCurtainTask(tasks[k], vs[k], pts, cols[k])
  }

  lemma OneMoreTask(
    tasks: seq<CurtainTask>, vs: seq<Volume>, pts: seq<Point>, cols: seq<seq<Column>>, n: nat,
    task: CurtainTask, c: seq<Column>)
    requires CurtainTasksTo(tasks, vs, pts, cols, n) && n < |vs| && IsCurtainTask(task, vs[n], pts, c)
    ensures CurtainTasksTo(tasks + [task], vs, pts, cols + [c], n + 1)
  {
    var tasks', cols' := tasks + [task], cols + [c];
    forall k | 0 <= k < n + 1
      ensures IsCurtainTask(tasks'[k], vs[k], pts, cols'[k])
    {
      if k < n {
        assert tasks'[k] == tasks[k] && cols'[k] == cols[k];
      } else {
        assert tasks'[k] == task && cols'[k] == c;
      }
    }
  }

  method BuildCurtainTask(v: Volume, pts: seq<Point>) returns (task: CurtainTask, ghost cols: seq<Column>)
    requires Curtain(v.Gvt()) && PointsIn(v.Gvt(), pts)
    ensures IsCurtainTask(task, v, pts, cols)
  {
    var ids, c := BuildIds(v.Gvt(), pts);
    return CurtainTask(v, ids), c;
  }

  /** The points of a query are in every volume. */
  lemma PointsInVolume(q: CurtainQuery, i: nat)
    requires CurtainQueryValid(q) && i < |Volumes(q.manifest, q.attributes, |q.attributes|)|
    ensures var v := Volumes(q.manifest, q.attributes, |q.attributes|)[i];
            Curtain(v.Gvt()) && PointsIn(v.Gvt(), PointsOf(q))
  {
    VolumesValid(q.manifest, q.attributes, |q.attributes|);
  }

  /*
   * Headers
   */

  function Size(q: Manifest, d: nat): nat
    requires ManifestValid(q) && d < 3
  {
    |q.lineNumbers[d]|
  }

  /** The shape of a slice: one in the direction of the query. */
  function SliceShape(m: Manifest, dim: nat): (r: seq<int>)
    requires ManifestValid(m) && dim < 3
    ensures |r| == 3
  {
    [Size(m, 0), Size(m, 1), Size(m, 2)][dim := 1]
  }

  /** The lines of a slice: only the queried one in the direction of the query. */
  function SliceLines(m: Manifest, dim: nat, idx: nat): (r: seq<seq<int>>)
    requires ManifestValid(m) && dim < 3 && idx < |m.lineNumbers[dim]|
    ensures |r| == 3
  {
    m.lineNumbers[dim := [m.lineNumbers[dim][idx]]]
  }

  /** Shapes as the header stores them: each one preceded by its length, the first for the data. */
  function ShapeList(data: seq<int>, attribute: seq<int>, n: nat): seq<int> {
    if n == 0 then [|data|] + data else ShapeList(data, attribute, n - 1) + [|attribute|] + attribute
  }

  function SliceHeader(q: SliceQuery, ntasks: int): Header
    requires SliceQueryValid(q)
  {
    var shape := SliceShape(q.manifest, q.dim);
    Header(SliceFunction, ntasks, 3, shape + Flatten(SliceLines(q.manifest, q.dim, q.idx)),
           ["data"] + q.attributes, ShapeList(shape, shape[2 := 1], |q.attributes|))
  }

  method SliceIndex(q: SliceQuery) returns (index: seq<int>)
    requires SliceQueryValid(q)
    ensures index == SliceShape(q.manifest, q.dim) + Flatten(SliceLines(q.manifest, q.dim, q.idx))
  {
    var lines := q.manifest.lineNumbers;
    index := [];
    for i := 0 to |lines|
      invariant index == SliceShape(q.manifest, q.dim)[..i]
    {
      index := index + [if i != q.dim then |lines[i]| else 1];
    }
    ghost var shape := SliceShape(q.manifest, q.dim);
    ghost var wanted := SliceLines(q.manifest, q.dim, q.idx);
    assert index == shape;
    for i := 0 to |lines|
      invariant index == shape + FlattenTo(wanted, i)
    {
      index := index + (if i != q.dim then lines[i] else [lines[i][q.idx]]);
    }
  }

  method MakeSliceHeader(q: SliceQuery, ntasks: int) returns (head: Header)
    requires SliceQueryValid(q)
    ensures head == SliceHeader(q, ntasks) && head.nbundles == ntasks && AnnouncesSlice(q, head)
  {
    SliceAnnounced(q, ntasks);
    var index := SliceIndex(q);
    ghost var shape := SliceShape(q.manifest, q.dim);
    assert index[..3] == shape;
    var shapes := [3] + index[..3];
    for i := 0 to |q.attributes|
      invariant shapes == ShapeList(shape, shape[2 := 1], i)
    {
      shapes := shapes + [3] + index[..3];
      shapes := shapes[|shapes| - 1 := 1];
      assert shapes == ShapeList(shape, shape[2 := 1], i) + [3] + shape[2 := 1];
    }
    head := Header(SliceFunction, ntasks, |q.manifest.lineNumbers|, index, ["data"] + q.attributes, shapes);
  }

  /** The line numbers of the given indices. */
  function LinesOf(lines: seq<int>, dims: seq<nat>): (r: seq<int>)
    requires forall i :: 0 <= i < |dims| ==> dims[i] < |lines|
    ensures |r| == |dims|
  {
    seq(|dims|, i requires 0 <= i < |dims| => lines[dims[i]])
  }

  function CurtainLines(q: CurtainQuery): (r: seq<seq<int>>)
    requires CurtainQueryValid(q)
    ensures |r| == 3
  {
    var lines := q.manifest.lineNumbers;
    [LinesOf(lines[0], q.dim0s), LinesOf(lines[1], q.dim1s), lines[2]]
  }

  function CurtainHeader(q: CurtainQuery, ntasks: int): Header
    requires CurtainQueryValid(q)
  {
    var n, depth := |q.dim0s|, Size(q.manifest, 2);
    Header(CurtainFunction, ntasks, 3, [n, n, depth] + Flatten(CurtainLines(q)),
           ["data"] + q.attributes, ShapeList([n, depth], [n], |q.attributes|))
  }

  method CurtainIndex(q: CurtainQuery) returns (index: seq<int>)
    requires CurtainQueryValid(q)
    ensures index == [|q.dim0s|, |q.dim1s|, Size(q.manifest, 2)] + Flatten(CurtainLines(q))
  {
    var lines := q.manifest.lineNumbers;
    index := [|q.dim0s|, |q.dim1s|, |lines[2]|];
    ghost var sizes, wanted := index, CurtainLines(q);
    for i := 0 to |q.dim0s|
      invariant index == sizes + wanted[0][..i]
    {
      index := index + [lines[0][q.dim0s[i]]];
    }
    for i := 0 to |q.dim1s|
      invariant index == sizes + wanted[0] + wanted[1][..i]
    {
      index := index + [lines[1][q.dim1s[i]]];
    }
    index := index + lines[2];
    FlattenThree(wanted[0], wanted[1], wanted[2]);
  }

  method MakeCurtainHeader(q: CurtainQuery, ntasks: int) returns (head: Header)
    requires CurtainQueryValid(q)
    ensures head == CurtainHeader(q, ntasks) && head.nbundles == ntasks && AnnouncesCurtain(q, head)
  {
    var index := CurtainIndex(q);
    ghost var n, depth := |q.dim0s|, Size(q.manifest, 2);
    var shapes := [2] + index[1..3];
    assert index[1..3] == [n, depth];
    for i := 0 to |q.attributes|
      invariant shapes == ShapeList([n, depth], [n], i)
    {
      shapes := shapes + [1] + [index[0]];
    }
    head := Header(CurtainFunction, ntasks, |q.manifest.lineNumbers|, index, ["data"] + q.attributes, shapes);
    CurtainAnnounced(q, ntasks);
  }

  /*
   * Reading a header
   */

  /** splitindex: the sizes first, then that many line numbers for each. */
  function SplitIndex(ndims: nat, index: seq<int>): seq<seq<int>> {
    SplitBy(Stream.Take(index, ndims), Stream.Skip(index, ndims))
  }

  function SplitBy(sizes: seq<int>, index: seq<int>): seq<seq<int>>
    decreases |sizes|
  {
    if |sizes| == 0 then [] else
      [Stream.Take(index, sizes[0])] + SplitBy(sizes[1..], Stream.Skip(index, sizes[0]))
  }

  lemma {:induction false} SplitByFlatten(sizes: seq<int>, lists: seq<seq<int>>)
    requires |sizes| == |lists| && forall i :: 0 <= i < |lists| ==> sizes[i] == |lists[i]|
    ensures SplitBy(sizes, Flatten(lists)) == lists
    decreases |sizes|
  {
    if |sizes| > 0 {
      var rest := Flatten(lists[1..]);
      FlattenCons(lists[0], lists[1..]);
      assert lists == [lists[0]] + lists[1..];
      TakeSkip(lists[0], rest);
      SplitByFlatten(sizes[1..], lists[1..]);
    }
  }

  lemma TakeSkip(a: seq<int>, b: seq<int>)
    ensures Stream.Take(a + b, |a|) == a && Stream.Skip(a + b, |a|) == b
  {
    assert (a + b)[..|a|] == a && (a + b)[|a|..] == b;
    if |b| == 0 {
      assert a + b == a;
    }
  }

  /** The index of a slice header gives back all lines, and in the queried direction the queried one. */
  lemma SliceIndexDecodes(q: SliceQuery, ntasks: int)
    requires SliceQueryValid(q)
    ensures IndexesSlice(q, SplitIndex(SliceHeader(q, ntasks).ndims, SliceHeader(q, ntasks).index))
  {
    var shape, lists := SliceShape(q.manifest, q.dim), SliceLines(q.manifest, q.dim, q.idx);
    TakeSkip(shape, Flatten(lists));
    SplitByFlatten(shape, lists);
  }

  predicate IndexesSlice(q: SliceQuery, index: seq<seq<int>>)
    requires SliceQueryValid(q)
  {
    var lines := q.manifest.lineNumbers;
    |index| == 3 && forall d :: 0 <= d < 3 ==> index[d] == if d == q.dim then [lines[d][q.idx]] else lines[d]
  }

  /** The index of a curtain header gives back the lines of every point, and all depths. */
  lemma CurtainIndexDecodes(q: CurtainQuery, ntasks: int)
    requires CurtainQueryValid(q)
    ensures IndexesCurtain(q, SplitIndex(CurtainHeader(q, ntasks).ndims, CurtainHeader(q, ntasks).index))
  {
    var sizes: seq<int> := [|q.dim0s|, |q.dim0s|, Size(q.manifest, 2)];
    TakeSkip(sizes, Flatten(CurtainLines(q)));
    SplitByFlatten(sizes, CurtainLines(q));
  }

  predicate IndexesCurtain(q: CurtainQuery, index: seq<seq<int>>)
    requires CurtainQueryValid(q)
  {
    var lines := q.manifest.lineNumbers;
    && |index| == 3 && |index[0]| == |index[1]| == |q.dim0s| && index[2] == lines[2]
    && forall i :: 0 <= i < |q.dim0s| ==>
         index[0][i] == lines[0][q.dim0s[i]] && index[1][i] == lines[1][q.dim1s[i]]
  }

  function Copies(shape: seq<int>, n: nat): (r: seq<seq<int>>)
    ensures |r| == n && forall i :: 0 <= i < n ==> r[i] == shape
  {
    seq(n, _ => shape)
  }

  /** A shape for the data, and one for every attribute. */
  function ShapesOf(data: seq<int>, attribute: seq<int>, n: nat): (r: seq<seq<int>>)
    ensures |r| == n + 1
  {
    [data] + Copies(attribute, n)
  }

  lemma {:induction false} ShapeListCons(data: seq<int>, attribute: seq<int>, n: nat)
    ensures ShapeList(data, attribute, n) == [|data|] + data + AttributeShapes(attribute, n)
  {
    if n > 0 {
      ShapeListCons(data, attribute, n - 1);
      AttributeShapesSnoc(attribute, n - 1);
    }
  }

  function AttributeShapes(attribute: seq<int>, n: nat): seq<int> {
    if n == 0 then [] else [|attribute|] + attribute + AttributeShapes(attribute, n - 1)
  }

  lemma {:induction false} AttributeShapesSnoc(attribute: seq<int>, n: nat)
    ensures AttributeShapes(attribute, n + 1) == AttributeShapes(attribute, n) + [|attribute|] + attribute
  {
    if n > 0 {
      AttributeShapesSnoc(attribute, n - 1);
    }
  }

  lemma {:induction false} AttributeShapesDecode(attribute: seq<int>, n: nat)
    ensures Stream.SplitShapes(AttributeShapes(attribute, n)) == Copies(attribute, n)
  {
    if n > 0 {
      AttributeShapesDecode(attribute, n - 1);
      OneMoreShape(attribute, AttributeShapes(attribute, n - 1), n - 1);
    }
  }

  lemma OneMoreShape(shape: seq<int>, rest: seq<int>, n: nat)
    requires Stream.SplitShapes(rest) == Copies(shape, n)
    ensures Stream.SplitShapes([|shape|] + shape + rest) == Copies(shape, n + 1)
  {
    ShapeFirst(shape, rest);
    assert Copies(shape, n + 1) == [shape] + Copies(shape, n);
  }

  lemma ShapeFirst(shape: seq<int>, rest: seq<int>)
    ensures Stream.SplitShapes([|shape|] + shape + rest) == [shape] + Stream.SplitShapes(rest)
  {
    var xs := [|shape|] + shape + rest;
    assert xs[1..] == shape + rest;
    TakeSkip(shape, rest);
  }

  /** The shape list of a header gives back one shape for the data, and one for every attribute. */
  lemma ShapesDecode(data: seq<int>, attribute: seq<int>, n: nat)
    ensures Stream.SplitShapes(ShapeList(data, attribute, n)) == ShapesOf(data, attribute, n)
  {
    ShapeListCons(data, attribute, n);
    ShapeFirst(data, AttributeShapes(attribute, n));
    AttributeShapesDecode(attribute, n);
  }

  /*
   * What a header announces
   */

  /** The sides of output k of a slice: one in the queried direction, and for an attribute one in the depth. */
  predicate IsSliceShape(q: SliceQuery, k: nat, shape: seq<int>)
    requires SliceQueryValid(q)
  {
    && |shape| == 3
    && forall d :: 0 <= d < 3 ==>
         shape[d] == if d == q.dim || (k > 0 && d == 2) then 1 else |q.manifest.lineNumbers[d]|
  }

  /** The data and all attributes that are asked for, their shapes, and the lines. */
  predicate AnnouncesSlice(q: SliceQuery, head: Header)
    requires SliceQueryValid(q)
  {
    var shapes := Stream.SplitShapes(head.shapes);
    && head.kind == SliceFunction && head.ndims == 3 && head.attributes == ["data"] + q.attributes
    && |shapes| == |head.attributes| && (forall k :: 0 <= k < |shapes| ==> IsSliceShape(q, k, shapes[k]))
    && IndexesSlice(q, SplitIndex(head.ndims, head.index))
  }

  lemma SliceAnnounced(q: SliceQuery, ntasks: int)
    requires SliceQueryValid(q)
    ensures AnnouncesSlice(q, SliceHeader(q, ntasks)) && SliceHeader(q, ntasks).nbundles == ntasks
  {
    var shape, n := SliceShape(q.manifest, q.dim), |q.attributes|;
    ShapesDecode(shape, shape[2 := 1], n);
    var shapes := ShapesOf(shape, shape[2 := 1], n);
    forall k | 0 <= k < |shapes|
      ensures IsSliceShape(q, k, shapes[k])
    {}
    SliceIndexDecodes(q, ntasks);
  }

  /** The shape of output k of a curtain: a row for every point, and for an attribute one sample in each. */
  predicate IsCurtainShape(q: CurtainQuery, k: nat, shape: seq<int>)
    requires CurtainQueryValid(q)
  {
    shape == if k == 0 then [|q.dim0s|, |q.manifest.lineNumbers[2]|] else [|q.dim0s|]
  }

  predicate AnnouncesCurtain(q: CurtainQuery, head: Header)
    requires CurtainQueryValid(q)
  {
    var shapes := Stream.SplitShapes(head.shapes);
    && head.kind == CurtainFunction && head.ndims == 3 && head.attributes == ["data"] + q.attributes
    && |shapes| == |head.attributes| && (forall k :: 0 <= k < |shapes| ==> IsCurtainShape(q, k, shapes[k]))
    && IndexesCurtain(q, SplitIndex(head.ndims, head.index))
  }

  lemma CurtainAnnounced(q: CurtainQuery, ntasks: int)
    requires CurtainQueryValid(q)
    ensures AnnouncesCurtain(q, CurtainHeader(q, ntasks)) && CurtainHeader(q, ntasks).nbundles == ntasks
  {
    var rows, depth, n := |q.dim0s|, Size(q.manifest, 2), |q.attributes|;
    ShapesDecode([rows, depth], [rows], n);
    var shapes := ShapesOf([rows, depth], [rows], n);
    forall k | 0 <= k < |shapes|
      ensures IsCurtainShape(q, k, shapes[k])
    {}
    CurtainIndexDecodes(q, ntasks);
  }
}
