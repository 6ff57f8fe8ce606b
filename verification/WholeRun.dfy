/**
 * A whole run, from the plan to the client: whatever the machines do, and
 * wherever the connection breaks, the client decodes the requested samples or
 * is told that the response is incomplete. It never takes something else for
 * the answer.
 */
module WholeRun {
  import opened Lists
  import opened Geometry
  import opened Messages
  import opened ArrayTag
  import opened Decoder
  import opened Stream
  import opened Distributed
  import opened FinishedRuns
  import Plan
  import CurtainPlan
  import Grouping
  import Partition
  import Scheduling
  import SliceEndToEnd
  import CurtainEndToEnd

  /** The run is one of a process with the given header, whose tasks produce the given bundles. */
  ghost predicate RunOf(c: Config, enc: Object -> seq<Byte>, head: Header, bundles: seq<Object>) {
    && c.Valid() && |bundles| == c.ntasks == head.nbundles <= INT_MAX
    && c.header == PackEnvelope(enc, head)
    && forall p, added :: 0 <= p < c.ntasks && Whole(added, c.sizes[p]) ==> c.pack(p, added) == enc(bundles[p])
  }

  /** The numbers below n that are not in s. */
  function Missing(s: seq<nat>, n: nat): (r: seq<nat>)
    ensures DistinctBelow(r, n)
    ensures forall p: nat :: p in r <==> p < n && p !in s
  {
    if n == 0 then [] else Missing(s, n - 1) + (if n - 1 in s then [] else [n - 1])
  }

  lemma Completed(s: seq<nat>, n: nat)
    requires DistinctBelow(s, n)
    ensures Permutation(s + Missing(s, n), Range(n))
  {
    var all, range := s + Missing(s, n), Range(n);
    forall i, j | 0 <= i < j < |all|
      ensures all[i] != all[j]
    {
      if i < |s| <= j {
        assert all[i] in s && all[j] in Missing(s, n);
      }
    }
    forall p: nat
      ensures p in all <==> p in range
    {
      if p < n {
        assert range[p] == p;
        assert p in s || p in Missing(s, n);
      }
    }
    SameElements(all, range);
  }

  /** Bundles in the order of the given parts. */
  function InOrder(bundles: seq<Object>, parts: seq<nat>): (r: seq<Object>)
    requires forall i :: 0 <= i < |parts| ==> parts[i] < |bundles|
    ensures |r| == |parts|
  {
    seq(|parts|, i requires 0 <= i < |parts| => bundles[parts[i]])
  }

  lemma InOrderPermutes(bundles: seq<Object>, parts: seq<nat>)
    requires DistinctBelow(parts, |bundles|)
    ensures forall i :: 0 <= i < |parts + Missing(parts, |bundles|)| ==>
              (parts + Missing(parts, |bundles|))[i] < |bundles|
    ensures Permutation(InOrder(bundles, parts + Missing(parts, |bundles|)), bundles)
  {
    var n := |bundles|;
    var all, range := parts + Missing(parts, n), Range(n);
    var f: nat -> Object := p => if 0 <= p < n then bundles[p] else OtherObject;
    Completed(parts, n);
    MapPermutation(f, all, range);
    assert Map(f, all) == InOrder(bundles, all);
    assert Map(f, range) == bundles;
  }

  ghost predicate PrefixOf(a: seq<Byte>, b: seq<Byte>) {
    |a| <= |b| && b[..|a|] == a
  }

  /** What is known of the result stream and the collector in every reachable state. */
  ghost predicate Sound(c: Config, s: Distributed.State) {
    && |s.results| == |s.parts| <= c.ntasks && DistinctBelow(s.parts, c.ntasks)
    && (forall i :: 0 <= i < |s.parts| ==> WholeResult(c, s.parts[i], s.results[i]))
    && (|| s.emitted == []
        || (0 < |s.emitted| <= |s.results| + 1 && s.emitted == [c.header] + s.results[..|s.emitted| - 1]))
    && (s.collector.Closed? ==> |s.emitted| == c.ntasks + 1 && |s.results| == c.ntasks)
  }

  lemma ReachableSound(c: Config, s: Distributed.State)
    requires Reachable(c, s)
    ensures Sound(c, s)
  {
    ResultsSound(c, s);
    CollectedSound(c, s);
  }

  /** What was emitted, in terms of the bundles. */
  lemma EmittedIs(
    c: Config, s: Distributed.State, enc: Object -> seq<Byte>, head: Header, bundles: seq<Object>, m: nat)
    requires Sound(c, s) && RunOf(c, enc, head, bundles) && m <= |s.results|
    requires s.emitted == [c.header] + s.results[..m]
    ensures Flatten(s.emitted) == PackEnvelope(enc, head) + Flatten(Map(enc, InOrder(bundles, s.parts[..m])))
  {
    var got := InOrder(bundles, s.parts[..m]);
    forall i | 0 <= i < m
      ensures s.results[i] == enc(got[i])
    {
      assert WholeResult(c, s.parts[i], s.results[i]);
    }
    assert s.results[..m] == Map(enc, got);
    FlattenCons(c.header, s.results[..m]);
  }

  /**
   * In every reachable state, what the collector has emitted is the beginning
   * of a complete response, with the bundles in some order; when it has
   * stopped, it is all of it.
   */
  lemma EmittedBegins(c: Config, s: Distributed.State, enc: Object -> seq<Byte>, head: Header, bundles: seq<Object>)
    returns (arrived: seq<Object>)
    requires Sound(c, s) && RunOf(c, enc, head, bundles)
    ensures Permutation(arrived, bundles) && |arrived| == head.nbundles
    ensures PrefixOf(Flatten(s.emitted), Response(enc, head, arrived))
    ensures s.collector.Closed? ==> Flatten(s.emitted) == Response(enc, head, arrived)
  {
    arrived := Continued(bundles, s.parts);
    if s.emitted != [] {
      var m := |s.emitted| - 1;
      EmittedIs(c, s, enc, head, bundles, m);
      ContinuedFrom(bundles, s.parts, m);
      assert s.collector.Closed? ==> m == |arrived|;
      BeginsResponse(enc, head, arrived, InOrder(bundles, s.parts[..m]), arrived[m..], Flatten(s.emitted));
    }
  }

  /** The bundles of the given parts, and after them all others. */
  function Continued(bundles: seq<Object>, parts: seq<nat>): (r: seq<Object>)
    requires DistinctBelow(parts, |bundles|)
    ensures Permutation(r, bundles) && |r| == |bundles|
  {
    InOrderPermutes(bundles, parts);
    var r := InOrder(bundles, parts + Missing(parts, |bundles|));
    PermutationLength(r, bundles);
    r
  }

  lemma ContinuedFrom(bundles: seq<Object>, parts: seq<nat>, m: nat)
    requires DistinctBelow(parts, |bundles|) && m <= |parts|
    ensures Continued(bundles, parts) == InOrder(bundles, parts[..m]) + Continued(bundles, parts)[m..]
  {
    InOrderPermutes(bundles, parts);
  }

  lemma BeginsResponse(
    enc: Object -> seq<Byte>, head: Header, arrived: seq<Object>, got: seq<Object>, rest: seq<Object>, bytes: seq<Byte>)
    requires arrived == got + rest && 0 <= head.nbundles <= INT_MAX
    requires bytes == PackEnvelope(enc, head) + Flatten(Map(enc, got))
    ensures PrefixOf(bytes, Response(enc, head, arrived))
    ensures rest == [] ==> bytes == Response(enc, head, arrived)
  {
    FlattenMapConcat(enc, got, rest);
    assert Response(enc, head, arrived) == bytes + Flatten(Map(enc, rest));
    if rest == [] {
      assert arrived == got;
    }
  }

  /** Any beginning of what a collector emits decodes like the complete response, or is known to be incomplete. */
  lemma CutOrWhole(next: Unpacker, all: seq<Byte>, emitted: seq<Byte>, k: nat)
    requires PrefixStable(next) && Complete(next, all) && PrefixOf(emitted, all) && k <= |emitted|
    ensures DecodeAll(next, emitted[..k]) == DecodeAll(next, all)
            || DecodeAll(next, emitted[..k]) in {Broken(HeaderMissing), Broken(Incomplete)}
    ensures emitted == all && k == |emitted| ==> DecodeAll(next, emitted[..k]) == DecodeAll(next, all)
  {
    assert all[..k] == all[..|emitted|][..k];
    if k < |all| {
      CutAnywhere(next, all, k);
    } else {
      assert all[..k] == all;
    }
  }

  /**
   * The other direction: with a node to serve every task, each order of the
   * bundles is that of some run, which emits the complete response.
   */
  lemma EveryOrder(c: Config, enc: Object -> seq<Byte>, head: Header, bundles: seq<Object>, order: seq<nat>)
    returns (s: Distributed.State)
    requires RunOf(c, enc, head, bundles) && Whole(order, c.ntasks)
    requires forall p :: 0 <= p < c.ntasks ==> Servable(c, p)
    ensures Reachable(c, s) && s.collector.Closed?
    ensures Flatten(s.emitted) == Response(enc, head, InOrder(bundles, order))
  {
    s := FinishInOrder(c, order);
    ReachableSound(c, s);
    EmittedIs(c, s, enc, head, bundles, c.ntasks);
    assert order[..c.ntasks] == order;
  }

  /*
   * The systems that run a query
   */

  /** The other jobs that the nodes work on, of other queries. */
  datatype Others = Others(sizes: seq<nat>, pack: (nat, seq<nat>) -> seq<Byte>)

  /** The machines of a slice: the tasks and the header of its plan, and workers that add and pack. */
  function SliceSystem(
    q: Plan.SliceQuery, taskSize: nat, stores: string -> Store, enc: Object -> seq<Byte>, caps: seq<nat>,
    others: Others): Config
    requires Plan.SliceQueryValid(q) && taskSize > 0 && |SliceEndToEnd.Tasks(q, taskSize)| <= INT_MAX
  {
    var tasks := SliceEndToEnd.Tasks(q, taskSize);
    Config(
      |tasks|, Map((t: SliceTask) => |t.ids|, tasks) + others.sizes, caps,
      PackEnvelope(enc, Plan.SliceHeader(q, |tasks|)),
      (p: nat, added: seq<nat>) =>
        if p < |tasks| then enc(SliceEndToEnd.Gathered(stores, tasks[p], added)) else others.pack(p, added))
  }

  lemma SliceRunOf(
    q: Plan.SliceQuery, taskSize: nat, stores: string -> Store, enc: Object -> seq<Byte>, caps: seq<nat>,
    others: Others)
    requires Plan.SliceQueryValid(q) && taskSize > 0 && |SliceEndToEnd.Tasks(q, taskSize)| <= INT_MAX
    ensures var bundles := SliceEndToEnd.Bundles(q, taskSize, stores);
            |bundles| <= INT_MAX &&
            RunOf(SliceSystem(q, taskSize, stores, enc, caps, others), enc, Plan.SliceHeader(q, |bundles|), bundles)
  {
    var c, tasks := SliceSystem(q, taskSize, stores, enc, caps, others), SliceEndToEnd.Tasks(q, taskSize);
    var bundles := SliceEndToEnd.Bundles(q, taskSize, stores);
    forall p, added | 0 <= p < c.ntasks && Whole(added, c.sizes[p])
      ensures c.pack(p, added) == enc(bundles[p])
    {
      SliceEndToEnd.GatheredWhole(stores, tasks[p], added);
    }
  }

  /** Scheduling a slice sets up its system. */
  method StartSlice(
    query: Plan.SliceQuery, taskSize: int, pack: SliceTask -> seq<Byte>, enc: Object -> seq<Byte>,
    ghost stores: string -> Store, ghost caps: seq<nat>, ghost others: Others)
    returns (plan: Option<Partition.QueryPlan>, ghost c: Config)
    requires Scheduling.SliceInputValid(query)
    requires Scheduling.SmallEnough(
               SliceEndToEnd.Outputs(Scheduling.NormalSlice(query)), SliceEndToEnd.IdsOf, taskSize)
    ensures plan.None? <==> taskSize < 1 || Scheduling.TooMany(
              SliceEndToEnd.Outputs(Scheduling.NormalSlice(query)), SliceEndToEnd.IdsOf, taskSize)
    ensures plan.Some? ==>
              var q := Scheduling.NormalSlice(query);
              && |SliceEndToEnd.Tasks(q, taskSize)| <= INT_MAX
              && c == SliceSystem(q, taskSize, stores, enc, caps, others)
              && plan.value.header == c.header && plan.value.plan == Map(pack, SliceEndToEnd.Tasks(q, taskSize))
              && |plan.value.plan| == c.ntasks
  {
    var scheduled := Scheduling.ScheduleSlice(query, taskSize, pack, enc);
    plan, c := None, Config(0, [], [], [], others.pack);
    if scheduled.Planned? {
      var p := Scheduling.PlanSlice(scheduled.tasks, Scheduling.NormalSlice(query), taskSize, pack, enc);
      plan := Some(p);
      c := SliceSystem(Scheduling.NormalSlice(query), taskSize, stores, enc, caps, others);
    }
  }

  /** The machines of a curtain. */
  function CurtainSystem(
    q: Plan.CurtainQuery, planned: seq<CurtainTask>, taskSize: nat, stores: string -> Store,
    enc: Object -> seq<Byte>, caps: seq<nat>, others: Others): Config
    requires Plan.CurtainQueryValid(q) && taskSize > 0 && |CurtainEndToEnd.Tasks(planned, taskSize)| <= INT_MAX
  {
    var tasks := CurtainEndToEnd.Tasks(planned, taskSize);
    Config(
      |tasks|, Map((t: CurtainTask) => |t.ids|, tasks) + others.sizes, caps,
      PackEnvelope(enc, Plan.CurtainHeader(q, |tasks|)),
      (p: nat, added: seq<nat>) =>
        if p < |tasks| then enc(CurtainEndToEnd.Gathered(stores, tasks[p], added)) else others.pack(p, added))
  }

  lemma CurtainRunOf(
    q: Plan.CurtainQuery, planned: seq<CurtainTask>, taskSize: nat, stores: string -> Store,
    enc: Object -> seq<Byte>, caps: seq<nat>, others: Others)
    requires Plan.CurtainQueryValid(q) && taskSize > 0 && |CurtainEndToEnd.Tasks(planned, taskSize)| <= INT_MAX
    ensures var bundles := CurtainEndToEnd.Bundles(planned, taskSize, stores);
            |bundles| <= INT_MAX &&
            RunOf(CurtainSystem(q, planned, taskSize, stores, enc, caps, others), enc,
              Plan.CurtainHeader(q, |bundles|), bundles)
  {
    var c := CurtainSystem(q, planned, taskSize, stores, enc, caps, others);
    var tasks, bundles := CurtainEndToEnd.Tasks(planned, taskSize), CurtainEndToEnd.Bundles(planned, taskSize, stores);
    forall p, added | 0 <= p < c.ntasks && Whole(added, c.sizes[p])
      ensures c.pack(p, added) == enc(bundles[p])
    {
      CurtainEndToEnd.GatheredWhole(stores, tasks[p], added);
    }
  }

  /** Scheduling a curtain sets up its system. */
  method StartCurtain(
    query: Plan.CurtainQuery, taskSize: int, pack: CurtainTask -> seq<Byte>, enc: Object -> seq<Byte>,
    ghost stores: string -> Store, ghost caps: seq<nat>, ghost others: Others)
    returns (plan: Option<Partition.QueryPlan>, ghost c: Config, ghost planned: seq<CurtainTask>,
      ghost cols: seq<seq<CurtainPlan.Column>>)
    requires Scheduling.CurtainInputValid(query) && Scheduling.CurtainCountable(Scheduling.NormalCurtain(query))
    requires taskSize <= INT_MAX
    ensures Plan.AreCurtainTasks(planned, Scheduling.CurtainVolumes(Scheduling.NormalCurtain(query)),
              Plan.PointsOf(Scheduling.NormalCurtain(query)), cols)
    ensures plan.None? <==>
              taskSize < 1 || |query.dim0s| == 0 || Scheduling.TooMany(planned, CurtainEndToEnd.IdsOf, taskSize)
    ensures plan.Some? ==>
              && |CurtainEndToEnd.Tasks(planned, taskSize)| <= INT_MAX
              && c == CurtainSystem(Scheduling.NormalCurtain(query), planned, taskSize, stores, enc, caps, others)
              && plan.value.header == c.header && plan.value.plan == Map(pack, CurtainEndToEnd.Tasks(planned, taskSize))
              && |plan.value.plan| == c.ntasks
  {
    var scheduled;
    scheduled, planned, cols := Scheduling.ScheduleCurtain(query, taskSize, pack, enc);
    plan, c := None, Config(0, [], [], [], others.pack);
    if scheduled.Planned? {
      var p := Scheduling.PlanCurtain(scheduled.tasks, Scheduling.NormalCurtain(query), planned, taskSize, pack, enc);
      plan := Some(p);
      c := CurtainSystem(Scheduling.NormalCurtain(query), planned, taskSize, stores, enc, caps, others);
    }
  }

  /*
   * The runs of those systems
   */

  /** The client knows that what it got is not all of the response. */
  predicate KnownIncomplete(out: Outcome) {
    out in {Broken(HeaderMissing), Broken(Incomplete)}
  }

  /**
   * Slices: in every reachable state of the whole system, and for every
   * beginning of what was emitted, the client gets every plane right, or knows
   * that the response is incomplete; when the collector has stopped, and all
   * was received, it gets every plane right.
   */
  lemma SliceRun(
    q: Plan.SliceQuery, taskSize: nat, cubes: string -> Cube, stores: string -> Store, next: Unpacker,
    enc: Object -> seq<Byte>, caps: seq<nat>, others: Others, s: Distributed.State, k: nat)
    requires SliceEndToEnd.Ready(q, cubes, stores) && taskSize > 0 && PrefixStable(next) && Encodes(enc, next)
    requires |SliceEndToEnd.Tasks(q, taskSize)| <= INT_MAX
    requires Reachable(SliceSystem(q, taskSize, stores, enc, caps, others), s) && k <= |Flatten(s.emitted)|
    ensures var out := DecodeAll(next, Flatten(s.emitted)[..k]);
            && (SliceEndToEnd.Decodes(q, cubes, out) || KnownIncomplete(out))
            && (s.collector.Closed? && k == |Flatten(s.emitted)| ==> SliceEndToEnd.Decodes(q, cubes, out))
  {
    var c, bundles := SliceSystem(q, taskSize, stores, enc, caps, others), SliceEndToEnd.Bundles(q, taskSize, stores);
    SliceRunOf(q, taskSize, stores, enc, caps, others);
    ReachableSound(c, s);
    var arrived := EmittedBegins(c, s, enc, Plan.SliceHeader(q, |bundles|), bundles);
    SliceEndToEnd.SliceDecodes(q, taskSize, cubes, stores, arrived, next, enc);
    CutOrWhole(next, Response(enc, Plan.SliceHeader(q, |bundles|), arrived), Flatten(s.emitted), k);
  }

  /** The data, and every attribute whose columns are contiguous, is as requested. */
  ghost predicate CurtainAnswered(q: Plan.CurtainQuery, cubes: string -> Cube, out: Outcome)
    requires Plan.CurtainQueryValid(q)
  {
    && CurtainEndToEnd.Decodes(q, cubes, out)
    && CurtainEndToEnd.Delivered(Plan.DataVolume(q.manifest), Plan.PointsOf(q), cubes, out.writers)
  }

  /** The points of the query are those of its coordinates, grouped by the fragments of the data. */
  ghost predicate GroupedQuery(q: Plan.CurtainQuery, pts: seq<CurtainPlan.Point>)
    requires Plan.CurtainQueryValid(q)
  {
    var g := Plan.DataVolume(q.manifest).Gvt();
    CurtainPlan.Curtain(g) && Plan.PointsOf(q) == Grouping.Grouped(g, pts)
  }

  /** Curtains: the same, for the data, and for every attribute whose columns are contiguous. */
  lemma CurtainRun(
    q: Plan.CurtainQuery, pts: seq<CurtainPlan.Point>, planned: seq<CurtainTask>,
    cols: seq<seq<CurtainPlan.Column>>, taskSize: nat, cubes: string -> Cube, stores: string -> Store,
    next: Unpacker, enc: Object -> seq<Byte>, caps: seq<nat>, others: Others, s: Distributed.State, k: nat)
    requires CurtainEndToEnd.Ready(q, planned, cols, cubes, stores) && taskSize > 0 && GroupedQuery(q, pts)
    requires PrefixStable(next) && Encodes(enc, next) && |CurtainEndToEnd.Tasks(planned, taskSize)| <= INT_MAX
    requires Reachable(CurtainSystem(q, planned, taskSize, stores, enc, caps, others), s)
    requires k <= |Flatten(s.emitted)|
    ensures var out := DecodeAll(next, Flatten(s.emitted)[..k]);
            && (CurtainAnswered(q, cubes, out) || KnownIncomplete(out))
            && (s.collector.Closed? && k == |Flatten(s.emitted)| ==> CurtainAnswered(q, cubes, out))
  {
    var c := CurtainSystem(q, planned, taskSize, stores, enc, caps, others);
    var bundles := CurtainEndToEnd.Bundles(planned, taskSize, stores);
    CurtainRunOf(q, planned, taskSize, stores, enc, caps, others);
    ReachableSound(c, s);
    var arrived := EmittedBegins(c, s, enc, Plan.CurtainHeader(q, |bundles|), bundles);
    CurtainEndToEnd.CurtainDecodes(q, planned, cols, taskSize, cubes, stores, arrived, next, enc);
    var all := Response(enc, Plan.CurtainHeader(q, |bundles|), arrived);
    CutOrWhole(next, all, Flatten(s.emitted), k);
    CurtainEndToEnd.DataDelivered(q, pts, cubes, DecodeAll(next, all));
  }

  /*
   * There are such runs
   */

  /** Some node has a worker. */
  predicate SomeWorker(caps: seq<nat>) {
    exists k :: 0 <= k < |caps| && caps[k] > 0
  }

  lemma AllServable(c: Config)
    requires c.Valid() && SomeWorker(c.caps)
    ensures forall p :: 0 <= p < c.ntasks ==> Servable(c, p)
  {
    var k: nat :| k < |c.caps| && c.caps[k] > 0;
    forall p | 0 <= p < c.ntasks
      ensures Servable(c, p)
    {
      assert Serves(c, p, k);
    }
  }

  /** With one worker, whatever the number of fragments, a slice can be finished with its bundles in any order. */
  lemma SliceFinishes(
    q: Plan.SliceQuery, taskSize: nat, cubes: string -> Cube, stores: string -> Store, next: Unpacker,
    enc: Object -> seq<Byte>, caps: seq<nat>, others: Others, order: seq<nat>)
    returns (s: Distributed.State)
    requires SliceEndToEnd.Ready(q, cubes, stores) && taskSize > 0 && PrefixStable(next) && Encodes(enc, next)
    requires |SliceEndToEnd.Tasks(q, taskSize)| <= INT_MAX && SomeWorker(caps)
    requires Whole(order, |SliceEndToEnd.Bundles(q, taskSize, stores)|)
    ensures Reachable(SliceSystem(q, taskSize, stores, enc, caps, others), s) && s.collector.Closed?
    ensures var bundles := SliceEndToEnd.Bundles(q, taskSize, stores);
            Flatten(s.emitted) == Response(enc, Plan.SliceHeader(q, |bundles|), InOrder(bundles, order))
    ensures SliceEndToEnd.Decodes(q, cubes, DecodeAll(next, Flatten(s.emitted)))
  {
    var c, bundles := SliceSystem(q, taskSize, stores, enc, caps, others), SliceEndToEnd.Bundles(q, taskSize, stores);
    SliceRunOf(q, taskSize, stores, enc, caps, others);
    AllServable(c);
    s := EveryOrder(c, enc, Plan.SliceHeader(q, |bundles|), bundles, order);
    SliceRun(q, taskSize, cubes, stores, next, enc, caps, others, s, |Flatten(s.emitted)|);
    assert Flatten(s.emitted)[..|Flatten(s.emitted)|] == Flatten(s.emitted);
  }

  /** So can a curtain. */
  lemma CurtainFinishes(
    q: Plan.CurtainQuery, pts: seq<CurtainPlan.Point>, planned: seq<CurtainTask>,
    cols: seq<seq<CurtainPlan.Column>>, taskSize: nat, cubes: string -> Cube, stores: string -> Store,
    next: Unpacker, enc: Object -> seq<Byte>, caps: seq<nat>, others: Others, order: seq<nat>)
    returns (s: Distributed.State)
    requires CurtainEndToEnd.Ready(q, planned, cols, cubes, stores) && taskSize > 0 && GroupedQuery(q, pts)
    requires PrefixStable(next) && Encodes(enc, next) && |CurtainEndToEnd.Tasks(planned, taskSize)| <= INT_MAX
    requires SomeWorker(caps) && Whole(order, |CurtainEndToEnd.Bundles(planned, taskSize, stores)|)
    ensures Reachable(CurtainSystem(q, planned, taskSize, stores, enc, caps, others), s) && s.collector.Closed?
    ensures var bundles := CurtainEndToEnd.Bundles(planned, taskSize, stores);
            Flatten(s.emitted) == Response(enc, Plan.CurtainHeader(q, |bundles|), InOrder(bundles, order))
    ensures CurtainAnswered(q, cubes, DecodeAll(next, Flatten(s.emitted)))
  {
    var c := CurtainSystem(q, planned, taskSize, stores, enc, caps, others);
    var bundles := CurtainEndToEnd.Bundles(planned, taskSize, stores);
    CurtainRunOf(q, planned, taskSize, stores, enc, caps, others);
    AllServable(c);
    s := EveryOrder(c, enc, Plan.CurtainHeader(q, |bundles|), bundles, order);
    CurtainRun(q, pts, planned, cols, taskSize, cubes, stores, next, enc, caps, others, s, |Flatten(s.emitted)|);
    assert Flatten(s.emitted)[..|Flatten(s.emitted)|] == Flatten(s.emitted);
  }
}
