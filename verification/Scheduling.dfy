/**
 * Scheduling a query: schedule() of core/src/plan.cpp normalizes the
 * attributes, builds the tasks, cuts them in parts, and appends the header;
 * PlanQuery of api/api/query.go takes the packed set apart.
 */
module Scheduling {
  import opened Arith
  import opened Lists
  import opened Shapes
  import opened Geometry
  import opened Strides
  import opened Messages
  import opened ArrayTag
  import opened Partition
  import opened Plan
  import opened CurtainPlan
  import opened Grouping
  import Stream
  import SliceEndToEnd
  import CurtainEndToEnd

  /*
   * normalized_attributes
   */

  /** Strings compare lexicographically. */
  predicate StringLess(a: string, b: string) {
    |b| > 0 && (|a| == 0 || a[0] < b[0] || (a[0] == b[0] && StringLess(a[1..], b[1..])))
  }

  predicate StringLeq(a: string, b: string) {
    !StringLess(b, a)
  }

  lemma {:induction false} StringOrder(a: string, b: string, c: string)
    ensures StringLess(a, b) && StringLess(b, c) ==> StringLess(a, c)
    ensures StringLess(a, b) || StringLess(b, a) || a == b
    ensures !(StringLess(a, b) && StringLess(b, a))
  {
    if |a| > 0 && |b| > 0 && a[0] == b[0] {
      StringOrder(a[1..], b[1..], if |c| > 0 then c[1..] else []);
      assert a == [a[0]] + a[1..] && b == [b[0]] + b[1..];
    }
  }

  lemma LeqTransitive()
    ensures Transitive(StringLeq)
  {
    forall a, b, c | StringLeq(a, b) && StringLeq(b, c)
      ensures StringLeq(a, c)
    {
      StringOrder(a, b, c);
      StringOrder(b, c, a);
      StringOrder(c, a, b);
      StringOrder(c, b, a);
    }
  }

  lemma {:induction false} StringsSorted(s: seq<string>)
    ensures Ordered(StringLeq, SortBy(StringLess, s))
  {
    if |s| > 0 {
      StringsSorted(s[1..]);
      LeqTransitive();
      var rest := SortBy(StringLess, s[1..]);
      forall e | e in rest
        ensures if StringLess(e, s[0]) then StringLeq(e, s[0]) else StringLeq(s[0], e)
      {
        StringOrder(e, s[0], e);
      }
      InsertKeepsOrder(StringLess, StringLeq, s[0], rest);
    }
  }

  /** cdp stands for both of its coordinates. */
  function Spelled(attributes: seq<string>): (r: seq<string>)
    ensures forall a :: a in r <==>
              (a in attributes && a != "cdp") || ("cdp" in attributes && (a == "cdpx" || a == "cdpy"))
  {
    if |attributes| == 0 then [] else
      (if attributes[0] == "cdp" then ["cdpx", "cdpy"] else [attributes[0]]) + Spelled(attributes[1..])
  }

  lemma SpelledSnoc(attributes: seq<string>, a: string)
    ensures Spelled(attributes + [a]) == Spelled(attributes) + (if a == "cdp" then ["cdpx", "cdpy"] else [a])
  {
    if |attributes| > 0 {
      assert (attributes + [a])[1..] == attributes[1..] + [a];
      SpelledSnoc(attributes[1..], a);
    } else {
      assert [a][1..] == [] && [] + [a] == [a];
    }
  }

  /** std::unique: one of each run of equal elements. */
  function Unique(s: seq<string>): (r: seq<string>)
    ensures forall a :: a in r <==> a in s
    ensures |s| > 0 ==> |r| > 0 && r[0] == s[0]
  {
    if |s| <= 1 then s
    else if s[0] == s[1] then assert s[0] == s[1..][0]; Unique(s[1..])
    else [s[0]] + Unique(s[1..])
  }

  lemma {:induction false} UniqueDistinct(s: seq<string>)
    requires Ordered(StringLeq, s)
    ensures forall i, j :: 0 <= i < j < |Unique(s)| ==> StringLess(Unique(s)[i], Unique(s)[j])
  {
    if |s| > 1 {
      UniqueDistinct(s[1..]);
      if s[0] != s[1] {
        var rest := Unique(s[1..]);
        forall j | 0 <= j < |rest|
          ensures StringLess(s[0], rest[j])
        {
          assert rest[j] in s[1..];
          var k :| 1 <= k < |s| && s[k] == rest[j];
          assert StringLeq(s[0], s[1]) && (k == 1 || StringLeq(s[1], s[k]));
          StringOrder(s[0], s[1], s[k]);
          StringOrder(s[1], s[k], s[0]);
          StringOrder(s[0], s[k], s[0]);
        }
      }
    }
  }

  function NormalizedAttributes(attributes: seq<string>): seq<string> {
    Unique(SortBy(StringLess, Spelled(attributes)))
  }

  /** The attributes are spelled out, sorted, and without repetitions. */
  method Normalize(attributes: seq<string>) returns (attrs: seq<string>)
    ensures attrs == NormalizedAttributes(attributes)
  {
    attrs := [];
    for i := 0 to |attributes|
      invariant attrs == Spelled(attributes[..i])
    {
      assert attributes[..i + 1] == attributes[..i] + [attributes[i]];
      SpelledSnoc(attributes[..i], attributes[i]);
      if attributes[i] == "cdp" {
        attrs := attrs + ["cdpx"];
        attrs := attrs + ["cdpy"];
      } else {
        attrs := attrs + [attributes[i]];
      }
    }
    assert attributes[..|attributes|] == attributes;
    attrs := SortBy(StringLess, attrs);
    attrs := Unique(attrs);
  }

  /** In increasing order, precisely the attributes asked for, where cdp asks for two. */
  ghost predicate AsksFor(names: seq<string>, attributes: seq<string>) {
    && (forall i, j :: 0 <= i < j < |names| ==> StringLess(names[i], names[j]))
    && forall a :: a in names <==>
         (a in attributes && a != "cdp") || ("cdp" in attributes && (a == "cdpx" || a == "cdpy"))
  }

  /** What the rest of the plan relies on, and that nothing is lost or added. */
  lemma NormalizedIs(attributes: seq<string>)
    requires "data" !in attributes
    ensures Normalized(NormalizedAttributes(attributes)) && AsksFor(NormalizedAttributes(attributes), attributes)
  {
    var spelled := Spelled(attributes);
    var sorted := SortBy(StringLess, spelled);
    SortPermutes(StringLess, spelled);
    StringsSorted(spelled);
    UniqueDistinct(sorted);
    forall a
      ensures a in sorted <==> a in spelled
    {
      assert a in sorted <==> a in multiset(sorted);
      assert a in spelled <==> a in multiset(spelled);
    }
    LessIsDifferent(Unique(sorted));
  }

  lemma LessIsDifferent(s: seq<string>)
    requires forall i, j :: 0 <= i < j < |s| ==> StringLess(s[i], s[j])
    ensures forall i, j :: 0 <= i < j < |s| ==> s[i] != s[j]
  {
    forall i, j | 0 <= i < j < |s|
      ensures s[i] != s[j]
    {
      StringOrder(s[i], s[j], s[i]);
    }
  }

  /*
   * schedule
   */

  predicate SliceInputValid(q: SliceQuery) {
    ManifestValid(q.manifest) && q.dim < 3 && q.idx < |q.manifest.lineNumbers[q.dim]| && "data" !in q.attributes
  }

  function NormalSlice(q: SliceQuery): (r: SliceQuery)
    requires SliceInputValid(q)
    ensures SliceQueryValid(r) && AsksFor(r.attributes, q.attributes)
    ensures r.manifest == q.manifest && r.dim == q.dim && r.idx == q.idx
  {
    NormalizedIs(q.attributes);
    q.(attributes := NormalizedAttributes(q.attributes))
  }

  /** The blobs of a plan: the packed tasks, and the packed header in its envelope. */
  ghost predicate SlicePlan(
    q: SliceQuery, taskSize: nat, pack: SliceTask -> seq<Byte>, enc: Object -> seq<Byte>, blobs: seq<seq<Byte>>)
    requires SliceQueryValid(q) && taskSize > 0
  {
    var tasks := SliceEndToEnd.Tasks(q, taskSize);
    |tasks| <= INT_MAX &&
    blobs == Map(pack, tasks) + [Stream.PackEnvelope(enc, SliceHeader(q, |tasks|))]
  }

  /** The jobs of every output, and all tasks together, can be counted in an int. */
  predicate SmallEnough<Output, Id>(outputs: seq<Output>, idsOf: Output -> seq<Id>, taskSize: int) {
    && taskSize <= INT_MAX && (forall i :: 0 <= i < |outputs| ==> |idsOf(outputs[i])| <= INT_MAX)
    && (taskSize > 0 ==> TotalTasks(outputs, idsOf, taskSize, |outputs|) <= INT_MAX)
  }

  /** Some output has so many jobs that the sum in task_count leaves the range of an int. */
  ghost predicate TooMany<Output, Id>(outputs: seq<Output>, idsOf: Output -> seq<Id>, taskSize: nat) {
    exists i :: 0 <= i < |outputs| && |idsOf(outputs[i])| + taskSize - 1 > INT_MAX
  }

  /** A plane always cuts some fragment. */
  lemma SliceHasJobs(q: SliceQuery, i: nat)
    requires SliceQueryValid(q) && i < |SliceEndToEnd.Outputs(q)|
    ensures |SliceEndToEnd.Outputs(q)[i].ids| > 0
  {
    VolumesValid(q.manifest, q.attributes, |q.attributes|);
    var v := Volumes(q.manifest, q.attributes, |q.attributes|)[i];
    ProdPositive(PlaneWidths(v.Gvt(), q.dim));
  }

  /** A slice is planned unless there are too many jobs. */
  method ScheduleSlice(query: SliceQuery, taskSize: int, pack: SliceTask -> seq<Byte>, enc: Object -> seq<Byte>)
    returns (r: Partitioned)
    requires SliceInputValid(query)
    requires SmallEnough(SliceEndToEnd.Outputs(NormalSlice(query)), SliceEndToEnd.IdsOf, taskSize)
    ensures r.BadTaskSize? <==> taskSize < 1
    ensures taskSize >= 1 ==>
              (r.Terminated? <==> TooMany(SliceEndToEnd.Outputs(NormalSlice(query)), SliceEndToEnd.IdsOf, taskSize))
    ensures r.Planned? ==> fresh(r.tasks) && r.tasks.Valid()
                           && SlicePlan(NormalSlice(query), taskSize, pack, enc, r.tasks.blobs)
  {
    NormalizedIs(query.attributes);
    var attributes := Normalize(query.attributes);
    var q := query.(attributes := attributes);
    var fetch := BuildSlice(q);
    forall i | 0 <= i < |fetch|
      ensures |SliceEndToEnd.IdsOf(fetch[i])| > 0
    {
      SliceHasJobs(q, i);
    }
    r := Partition.Partition(fetch, SliceEndToEnd.IdsOf, SliceEndToEnd.WithIds, pack, taskSize);
    if r.Planned? {
      PieceCount(fetch, SliceEndToEnd.IdsOf, SliceEndToEnd.WithIds, taskSize, |fetch|);
      var ntasks := r.tasks.Count();
      var head := MakeSliceHeader(q, ntasks);
      r.tasks.Append(Stream.PackEnvelope(enc, head));
    }
  }

  /** A query for positions in the cube, whose attributes are still as they were asked for. */
  predicate CurtainInputValid(q: CurtainQuery) {
    CurtainQueryValid(q.(attributes := [])) && "data" !in q.attributes
  }

  function NormalCurtain(q: CurtainQuery): (r: CurtainQuery)
    requires CurtainInputValid(q)
    ensures CurtainQueryValid(r) && AsksFor(r.attributes, q.attributes)
    ensures r.manifest == q.manifest && r.dim0s == q.dim0s && r.dim1s == q.dim1s
  {
    NormalizedIs(q.attributes);
    q.(attributes := NormalizedAttributes(q.attributes))
  }

  /** The blobs of a plan: the packed tasks, and the packed header in its envelope. */
  ghost predicate CurtainPlanned(
    q: CurtainQuery, planned: seq<CurtainTask>, taskSize: nat, pack: CurtainTask -> seq<Byte>,
    enc: Object -> seq<Byte>, blobs: seq<seq<Byte>>)
    requires CurtainQueryValid(q) && taskSize > 0
  {
    var tasks := CurtainEndToEnd.Tasks(planned, taskSize);
    |tasks| <= INT_MAX &&
    blobs == Map(pack, tasks) + [Stream.PackEnvelope(enc, CurtainHeader(q, |tasks|))]
  }

  function CurtainVolumes(q: CurtainQuery): seq<Volume>
    requires CurtainQueryValid(q)
  {
    Volumes(q.manifest, q.attributes, |q.attributes|)
  }

  predicate AllCurtain(vs: seq<Volume>) {
    forall i :: 0 <= i < |vs| ==> Curtain(vs[i].Gvt())
  }

  /** An upper bound for the jobs of the first n volumes: a column for every point. */
  function JobsBound(points: nat, vs: seq<Volume>, n: nat): nat
    requires n <= |vs| && AllCurtain(vs)
  {
    if n == 0 then 0 else
      MulMono(0, points, vs[n - 1].Gvt().FragmentCount(2));
      JobsBound(points, vs, n - 1) + points * vs[n - 1].Gvt().FragmentCount(2)
  }

  /** There are no more columns than points. */
  lemma ColumnsBound(g: Gvt, pts: seq<Point>, cols: seq<Column>)
    requires Curtain(g) && IsColumns(g, pts, |pts|, cols)
    ensures |cols| <= |pts|
  {
    var offsets := seq(|cols|, c requires 0 <= c < |cols| => cols[c].offset);
    forall c | 0 <= c < |cols|
      ensures offsets[c] < |pts| && Key(g, pts[offsets[c]]) == cols[c].key
    {
      assert IsColumn(g, pts, |pts|, cols[c]);
    }
    forall a, b | 0 <= a < b < |cols|
      ensures offsets[a] != offsets[b]
    {
      assert PairLess(cols[a].key, cols[b].key);
    }
    DistinctBound(offsets, |pts|);
  }

  lemma {:induction false} TotalBound(
    points: nat, vs: seq<Volume>, planned: seq<CurtainTask>, taskSize: nat, n: nat)
    requires taskSize > 0 && n <= |vs| == |planned| && AllCurtain(vs)
    requires forall i :: 0 <= i < |vs| ==> |planned[i].ids| <= points * vs[i].Gvt().FragmentCount(2)
    ensures TotalTasks(planned, CurtainEndToEnd.IdsOf, taskSize, n) <= JobsBound(points, vs, n)
    ensures forall i :: 0 <= i < n ==> |planned[i].ids| <= JobsBound(points, vs, n)
  {
    if n > 0 {
      TotalBound(points, vs, planned, taskSize, n - 1);
      MulMono(0, points, vs[n - 1].Gvt().FragmentCount(2));
      CountBound(|planned[n - 1].ids|, taskSize);
    }
  }

  lemma CountBound(jobs: nat, taskSize: nat)
    requires taskSize > 0
    ensures Count(jobs, taskSize) <= jobs
  {
    CountIs(jobs, taskSize);
    DivMod(jobs, taskSize);
    MulMono(1, taskSize, jobs / taskSize);
  }

  lemma FragmentsBound(task: CurtainTask, v: Volume, pts: seq<Point>, cols: seq<Column>)
    requires IsCurtainTask(task, v, pts, cols)
    ensures |task.ids| <= |pts| * v.Gvt().FragmentCount(2)
  {
    var h := v.Gvt().FragmentCount(2);
    ColumnsBound(v.Gvt(), pts, cols);
    ExpandLength(cols, h);
    MulMono(|cols|, |pts|, h);
  }

  lemma CurtainSmallEnough(q: CurtainQuery, planned: seq<CurtainTask>, cols: seq<seq<Column>>, taskSize: int)
    requires CurtainQueryValid(q) && AreCurtainTasks(planned, CurtainVolumes(q), PointsOf(q), cols)
    requires AllCurtain(CurtainVolumes(q))
    requires taskSize <= INT_MAX && JobsBound(|q.dim0s|, CurtainVolumes(q), |CurtainVolumes(q)|) <= INT_MAX
    ensures SmallEnough(planned, CurtainEndToEnd.IdsOf, taskSize)
  {
    var vs := CurtainVolumes(q);
    forall i | 0 <= i < |vs|
      ensures |planned[i].ids| <= |q.dim0s| * vs[i].Gvt().FragmentCount(2)
    {
      assert IsCurtainTask(planned[i], vs[i], PointsOf(q), cols[i]);
      FragmentsBound(planned[i], vs[i], PointsOf(q), cols[i]);
    }
    TotalBound(|q.dim0s|, vs, planned, if taskSize > 0 then taskSize else 1, |vs|);
  }

  /** A curtain without points has no jobs, which cannot be counted. */
  lemma NoPoints(q: CurtainQuery, planned: seq<CurtainTask>, cols: seq<seq<Column>>)
    requires CurtainQueryValid(q) && |q.dim0s| == 0
    requires AreCurtainTasks(planned, CurtainVolumes(q), PointsOf(q), cols)
    ensures |planned| > 0 && planned[0].ids == []
  {
    VolumesValid(q.manifest, q.attributes, |q.attributes|);
    assert IsCurtainTask(planned[0], CurtainVolumes(q)[0], PointsOf(q), cols[0]);
    ColumnsBound(CurtainVolumes(q)[0].Gvt(), PointsOf(q), cols[0]);
  }

  /** With points, every volume has jobs. */
  lemma CurtainHasJobs(q: CurtainQuery, planned: seq<CurtainTask>, cols: seq<seq<Column>>, i: nat)
    requires CurtainQueryValid(q) && |q.dim0s| > 0 && AllCurtain(CurtainVolumes(q))
    requires AreCurtainTasks(planned, CurtainVolumes(q), PointsOf(q), cols) && i < |planned|
    ensures |planned[i].ids| > 0
  {
    var g := CurtainVolumes(q)[i].Gvt();
    assert IsCurtainTask(planned[i], CurtainVolumes(q)[i], PointsOf(q), cols[i]);
    assert HasColumn(cols[i], Key(g, PointsOf(q)[0]));
    GlobalToLocal(g.cube[2], g.frag[2], 0);
    ExpandLength(cols[i], g.FragmentCount(2));
    MulMono(1, |cols[i]|, g.FragmentCount(2));
  }

  /** The volumes of a query, and that its jobs can be counted in an int. */
  predicate CurtainCountable(q: CurtainQuery) {
    CurtainQueryValid(q) &&
    var vs := CurtainVolumes(q);
    AllCurtain(vs) && JobsBound(|q.dim0s|, vs, |vs|) <= INT_MAX
  }

  /** A curtain is planned unless it has no points, or there are too many jobs. */
  method ScheduleCurtain(query: CurtainQuery, taskSize: int, pack: CurtainTask -> seq<Byte>, enc: Object -> seq<Byte>)
    returns (r: Partitioned, ghost planned: seq<CurtainTask>, ghost cols: seq<seq<Column>>)
    requires CurtainInputValid(query) && CurtainCountable(NormalCurtain(query)) && taskSize <= INT_MAX
    ensures AreCurtainTasks(planned, CurtainVolumes(NormalCurtain(query)), PointsOf(NormalCurtain(query)), cols)
    ensures r.BadTaskSize? <==> taskSize < 1
    ensures taskSize >= 1 ==>
              (r.Terminated? <==> |query.dim0s| == 0 || TooMany(planned, CurtainEndToEnd.IdsOf, taskSize))
    ensures r.Planned? ==> fresh(r.tasks) && r.tasks.Valid()
                           && CurtainPlanned(NormalCurtain(query), planned, taskSize, pack, enc, r.tasks.blobs)
  {
    NormalizedIs(query.attributes);
    var attributes := Normalize(query.attributes);
    r, planned, cols := ScheduleNormal(query.(attributes := attributes), taskSize, pack, enc);
  }

  method ScheduleNormal(q: CurtainQuery, taskSize: int, pack: CurtainTask -> seq<Byte>, enc: Object -> seq<Byte>)
    returns (r: Partitioned, ghost planned: seq<CurtainTask>, ghost cols: seq<seq<Column>>)
    requires CurtainCountable(q) && taskSize <= INT_MAX
    ensures AreCurtainTasks(planned, CurtainVolumes(q), PointsOf(q), cols)
    ensures r.BadTaskSize? <==> taskSize < 1
    ensures taskSize >= 1 ==>
              (r.Terminated? <==> |q.dim0s| == 0 || TooMany(planned, CurtainEndToEnd.IdsOf, taskSize))
    ensures r.Planned? ==> fresh(r.tasks) && r.tasks.Valid()
                           && CurtainPlanned(q, planned, taskSize, pack, enc, r.tasks.blobs)
  {
    var fetch, c := BuildCurtain(q);
    planned, cols := fetch, c;
    CurtainSmallEnough(q, fetch, c, taskSize);
    UncountableCurtain(q, fetch, c, if taskSize > 0 then taskSize else 1);
    r := Partition.Partition(fetch, CurtainEndToEnd.IdsOf, CurtainEndToEnd.WithIds, pack, taskSize);
    if r.Planned? {
      PieceCount(fetch, CurtainEndToEnd.IdsOf, CurtainEndToEnd.WithIds, taskSize, |fetch|);
      var ntasks := r.tasks.Count();
      var head := MakeCurtainHeader(q, ntasks);
      r.tasks.Append(Stream.PackEnvelope(enc, head));
    }
  }

  lemma UncountableCurtain(q: CurtainQuery, planned: seq<CurtainTask>, cols: seq<seq<Column>>, taskSize: nat)
    requires CurtainCountable(q) && taskSize > 0
    requires AreCurtainTasks(planned, CurtainVolumes(q), PointsOf(q), cols)
    ensures (exists i :: 0 <= i < |planned| && !Countable(|CurtainEndToEnd.IdsOf(planned[i])|, taskSize))
            <==> |q.dim0s| == 0 || TooMany(planned, CurtainEndToEnd.IdsOf, taskSize)
  {
    if |q.dim0s| == 0 {
      NoPoints(q, planned, cols);
      assert !Countable(|CurtainEndToEnd.IdsOf(planned[0])|, taskSize);
    } else {
      forall i | 0 <= i < |planned|
        ensures |CurtainEndToEnd.IdsOf(planned[i])| > 0
      {
        CurtainHasJobs(q, planned, cols, i);
      }
    }
  }

  /*
   * The plan, taken apart again
   */

  /** PlanQuery gets the header, and the packed tasks in their order. */
  method PlanSlice(
    tasks: TaskSet, ghost q: SliceQuery, ghost taskSize: nat, ghost pack: SliceTask -> seq<Byte>,
    ghost enc: Object -> seq<Byte>)
    returns (plan: QueryPlan)
    requires SliceQueryValid(q) && taskSize > 0
    requires tasks.Valid() && SlicePlan(q, taskSize, pack, enc, tasks.blobs)
    ensures var parts := SliceEndToEnd.Tasks(q, taskSize);
            |parts| <= INT_MAX &&
            plan == QueryPlan(Stream.PackEnvelope(enc, SliceHeader(q, |parts|)), Map(pack, parts))
  {
    plan := SplitPlan(tasks.sizes, tasks.packed, tasks.blobs);
  }

  /** The same for the plan of a curtain. */
  method PlanCurtain(
    tasks: TaskSet, ghost q: CurtainQuery, ghost planned: seq<CurtainTask>, ghost taskSize: nat,
    ghost pack: CurtainTask -> seq<Byte>, ghost enc: Object -> seq<Byte>)
    returns (plan: QueryPlan)
    requires CurtainQueryValid(q) && taskSize > 0
    requires tasks.Valid() && CurtainPlanned(q, planned, taskSize, pack, enc, tasks.blobs)
    ensures var parts := CurtainEndToEnd.Tasks(planned, taskSize);
            |parts| <= INT_MAX &&
            plan == QueryPlan(Stream.PackEnvelope(enc, CurtainHeader(q, |parts|)), Map(pack, parts))
  {
    plan := SplitPlan(tasks.sizes, tasks.packed, tasks.blobs);
  }
}
