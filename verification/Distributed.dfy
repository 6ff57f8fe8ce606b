/**
 * A query as it runs on many machines: the scheduler (api/api/scheduler.go),
 * fetch nodes with their worker pools and gathering goroutines
 * (api/cmd/fetch), the result stream, and the collector (api/api/result.go).
 *
 * Job p is one task. Jobs below ntasks are those of the query; the others are
 * jobs of other queries that use the same nodes. A stream is a sequence, and a
 * consumer group delivers an entry to at most one consumer, at most once. Steps
 * are never obliged to happen: a machine may stop, and jobs may get lost.
 */
module Distributed {
  import opened Lists
  import opened ArrayTag

  datatype Config = Config(
    ntasks: nat,                            // tasks of the query
    sizes: seq<nat>,                        // fragments of every job
    caps: seq<nat>,                         // capacity of every node: channels, and number of workers
    header: seq<Byte>,                      // the packed header
    pack: (nat, seq<nat>) -> seq<Byte>)     // what a job packs after adding the given fragments
  {
    predicate Valid() {
      ntasks <= |sizes|
    }
  }

  /** A request for fragment index of a job. */
  datatype Request = Request(job: nat, index: nat)

  /**
   * One fetch process: the channel of requests, and what its workers are busy
   * with: fetching, about to send a fragment, or about to send an error.
   */
  datatype Node = Node(
    requests: seq<Request>, fetching: multiset<Request>, good: multiset<Request>, bad: multiset<Request>)
  {
    function Busy(): nat {
      |fetching| + |good| + |bad|
    }

    /** How often the node holds a request. */
    function Count(r: Request): nat {
      multiset(requests)[r] + fetching[r] + good[r] + bad[r]
    }
  }

  /**
   * gather() reads fragments and errors; after an error it only takes the errors
   * that are already there (GivenUp), and returns when there is none.
   */
  datatype Phase = Waiting | Gathering | GivenUp | Returned | Packed | Stored | Lost

  /**
   * A job, once it is delivered to a node: how many requests are enqueued, its
   * two channels, the fragments gather() added, and the errors it took.
   */
  datatype Job = Job(
    phase: Phase, node: nat, enqueued: nat, fragments: seq<nat>, errors: seq<nat>, added: seq<nat>, dropped: seq<nat>)
  {
    function Count(i: nat): nat {
      multiset(fragments)[i] + multiset(errors)[i] + multiset(added)[i] + multiset(dropped)[i]
    }
  }

  const Fresh: Job := Job(Waiting, 0, 0, [], [], [], [])

  /** Not started, or reading the stream from the cursor on, or done. */
  datatype Collector = Idle | Reading(cursor: nat, count: nat) | Closed

  datatype State = State(
    headerStored: bool, scheduled: nat, jobs: seq<Job>, nodes: seq<Node>,
    parts: seq<nat>, results: seq<seq<Byte>>,   // part labels and values of the query's result stream
    collector: Collector, emitted: seq<seq<Byte>>)

  ghost predicate Init(c: Config, s: State) {
    && c.Valid()
    && !s.headerStored && s.scheduled == 0
    && |s.jobs| == |c.sizes| && (forall p :: 0 <= p < |s.jobs| ==> s.jobs[p] == Fresh)
    && |s.nodes| == |c.caps|
    && (forall k :: 0 <= k < |s.nodes| ==> s.nodes[k] == Node([], multiset{}, multiset{}, multiset{}))
    && s.parts == [] && s.results == [] && s.collector == Idle && s.emitted == []
  }

  datatype Step =
    | StoreHeader
    | Schedule
    | Deliver(job: nat, node: nat)
    | Drop(job: nat)
    | Enqueue(job: nat)
    | Take(node: nat)
    | Fetch(node: nat, request: Request, ok: bool)
    | SendFragment(node: nat, request: Request)
    | SendError(node: nat, request: Request)
    | AddFragment(job: nat)
    | TakeError(job: nat)
    | DrainError(job: nat)
    | Return(job: nat)
    | Pack(job: nat)
    | Store(job: nat)
    | StoreFails(job: nat)
    | StartCollecting
    | Collect(n: nat)
    | StopCollecting

  predicate Live(s: State, p: nat) {
    p < |s.jobs| && s.jobs[p].phase != Waiting && s.jobs[p].node < |s.nodes|
  }

  predicate Enabled(c: Config, s: State, step: Step)
    requires c.Valid() && |s.jobs| == |c.sizes| && |s.nodes| == |c.caps|
  {
    match step
    case StoreHeader => !s.headerStored
    case Schedule => s.headerStored && s.scheduled < c.ntasks
    case Deliver(p, k) =>
      p < |s.jobs| && (p < c.ntasks ==> p < s.scheduled) && s.jobs[p].phase == Waiting && k < |s.nodes|
    case Drop(p) => p < |s.jobs| && (p < c.ntasks ==> p < s.scheduled) && s.jobs[p].phase == Waiting && |s.nodes| > 0
    case Enqueue(p) =>
      Live(s, p) && s.jobs[p].phase in {Gathering, GivenUp, Returned} && s.jobs[p].enqueued < c.sizes[p]
      && |s.nodes[s.jobs[p].node].requests| < c.caps[s.jobs[p].node]
    case Take(k) => k < |s.nodes| && |s.nodes[k].requests| > 0 && s.nodes[k].Busy() < c.caps[k]
    case Fetch(k, r, ok) => k < |s.nodes| && r in s.nodes[k].fetching
    case SendFragment(k, r) =>
      k < |s.nodes| && r in s.nodes[k].good && Live(s, r.job) && |s.jobs[r.job].fragments| < c.caps[k]
    case SendError(k, r) => k < |s.nodes| && r in s.nodes[k].bad && Live(s, r.job) && |s.jobs[r.job].errors| < c.caps[k]
    case AddFragment(p) =>
      Live(s, p) && s.jobs[p].phase == Gathering && |s.jobs[p].added| < c.sizes[p] && |s.jobs[p].fragments| > 0
    case TakeError(p) =>
      Live(s, p) && s.jobs[p].phase == Gathering && |s.jobs[p].added| < c.sizes[p] && |s.jobs[p].errors| > 0
    case DrainError(p) => Live(s, p) && s.jobs[p].phase == GivenUp && |s.jobs[p].errors| > 0
    case Return(p) => Live(s, p) && s.jobs[p].phase == GivenUp && |s.jobs[p].errors| == 0
    case Pack(p) => Live(s, p) && s.jobs[p].phase == Gathering && |s.jobs[p].added| == c.sizes[p]
    case Store(p) => Live(s, p) && s.jobs[p].phase == Packed
    case StoreFails(p) => Live(s, p) && s.jobs[p].phase == Packed
    case StartCollecting => s.headerStored && s.collector.Idle?
    case Collect(n) =>
      s.collector.Reading? && s.collector.count < c.ntasks && 0 < n && s.collector.cursor + n <= |s.results|
    case StopCollecting => s.collector.Reading? && s.collector.count >= c.ntasks
  }

  function Perform(c: Config, s: State, step: Step): (s': State)
    requires c.Valid() && |s.jobs| == |c.sizes| && |s.nodes| == |c.caps| && Enabled(c, s, step)
    ensures |s'.jobs| == |s.jobs| && |s'.nodes| == |s.nodes|
  {
    match step
    case StoreHeader => s.(headerStored := true)
    case Schedule => s.(scheduled := s.scheduled + 1)
    case Deliver(p, k) => SetJob(s, p, Fresh.(phase := Gathering, node := k))
    case Drop(p) => SetJob(s, p, Fresh.(phase := Lost))
    case Enqueue(p) =>
      var job := s.jobs[p];
      var node := s.nodes[job.node];
      SetNode(SetJob(s, p, job.(enqueued := job.enqueued + 1)),
              job.node, node.(requests := node.requests + [Request(p, job.enqueued)]))
    case Take(k) =>
      var node := s.nodes[k];
      SetNode(s, k, node.(requests := node.requests[1..], fetching := node.fetching + multiset{node.requests[0]}))
    case Fetch(k, r, ok) =>
      var node := s.nodes[k].(fetching := s.nodes[k].fetching - multiset{r});
      SetNode(s, k, if ok then node.(good := node.good + multiset{r}) else node.(bad := node.bad + multiset{r}))
    case SendFragment(k, r) =>
      SetNode(SetJob(s, r.job, s.jobs[r.job].(fragments := s.jobs[r.job].fragments + [r.index])),
              k, s.nodes[k].(good := s.nodes[k].good - multiset{r}))
    case SendError(k, r) =>
      SetNode(SetJob(s, r.job, s.jobs[r.job].(errors := s.jobs[r.job].errors + [r.index])),
              k, s.nodes[k].(bad := s.nodes[k].bad - multiset{r}))
    case AddFragment(p) =>
      var job := s.jobs[p];
      SetJob(s, p, job.(fragments := job.fragments[1..], added := job.added + [job.fragments[0]]))
    case TakeError(p) =>
      var job := s.jobs[p];
      SetJob(s, p, job.(phase := GivenUp, errors := job.errors[1..], dropped := job.dropped + [job.errors[0]]))
    case DrainError(p) =>
      var job := s.jobs[p];
      SetJob(s, p, job.(errors := job.errors[1..], dropped := job.dropped + [job.errors[0]]))
    case Return(p) => SetJob(s, p, s.jobs[p].(phase := Returned))
    case Pack(p) => SetJob(s, p, s.jobs[p].(phase := Packed))
    case Store(p) =>
      var stored := SetJob(s, p, s.jobs[p].(phase := Stored));
      if p < c.ntasks
      then stored.(parts := s.parts + [p], results := s.results + [c.pack(p, s.jobs[p].added)])
      else stored
    case StoreFails(p) => SetJob(s, p, s.jobs[p].(phase := Lost))
    case StartCollecting => s.(collector := Reading(0, 0), emitted := [c.header])
    case Collect(n) =>
      var Reading(cursor, count) := s.collector;
      s.(collector := Reading(cursor + n, count + n), emitted := s.emitted + s.results[cursor..cursor + n])
    case StopCollecting => s.(collector := Closed)
  }

  function SetJob(s: State, p: nat, job: Job): State
    requires p < |s.jobs|
  {
    s.(jobs := s.jobs[p := job])
  }

  function SetNode(s: State, k: nat, node: Node): State
    requires k < |s.nodes|
  {
    s.(nodes := s.nodes[k := node])
  }

  /** The states that some sequence of steps leads to. */
  ghost predicate Reaches(c: Config, s: State, steps: seq<Step>, end: State)
    requires c.Valid() && |s.jobs| == |c.sizes| && |s.nodes| == |c.caps|
    decreases |steps|
  {
    if |steps| == 0 then s == end
    else Enabled(c, s, steps[0]) && Reaches(c, Perform(c, s, steps[0]), steps[1..], end)
  }

  ghost predicate Reachable(c: Config, s: State) {
    c.Valid() && exists init: State, steps: seq<Step> ::
      Init(c, init) && |init.jobs| == |c.sizes| && |init.nodes| == |c.caps| && Reaches(c, init, steps, s)
  }

  /*
   * What every step keeps
   */

  /** Every enqueued request is in exactly one place, and no other request is anywhere. */
  ghost predicate Conserved(s: State, p: nat)
    requires p < |s.jobs| && s.jobs[p].node < |s.nodes|
  {
    forall i: nat ::
      s.nodes[s.jobs[p].node].Count(Request(p, i)) + s.jobs[p].Count(i) == if i < s.jobs[p].enqueued then 1 else 0
  }

  ghost predicate JobInv(c: Config, s: State, p: nat)
    requires p < |s.jobs| == |c.sizes|
  {
    var job := s.jobs[p];
    && (job.phase == Waiting ==> job == Fresh)
    && (job.phase != Waiting ==>
          job.node < |s.nodes| && Conserved(s, p)
          && (p < c.ntasks ==> p < s.scheduled) && job.enqueued <= c.sizes[p])
    && EndsRight(job, c.sizes[p])
  }

  /** What the phase says about the fragments added and the errors taken. */
  predicate EndsRight(job: Job, n: nat) {
    && (job.phase in {Packed, Stored} ==> |job.added| == n)
    && (job.phase in {GivenUp, Returned} ==> |job.dropped| > 0)
    && (job.phase == Lost ==> job.enqueued == 0 || |job.added| == n)
  }

  /** Every request at a node belongs to a job that was delivered to the node. */
  ghost predicate NodeInv(c: Config, s: State, k: nat)
    requires k < |s.nodes| == |c.caps|
  {
    && |s.nodes[k].requests| <= c.caps[k] && s.nodes[k].Busy() <= c.caps[k]
    && forall r :: s.nodes[k].Count(r) > 0 ==> Live(s, r.job) && s.jobs[r.job].node == k
  }

  /** The result stream holds one entry for every stored job of the query, in the order they were stored. */
  ghost predicate ResultInv(c: Config, s: State)
    requires |s.jobs| == |c.sizes| && c.Valid()
  {
    && |s.results| == |s.parts|
    && (forall p: nat :: p in s.parts <==> p < c.ntasks && s.jobs[p].phase == Stored)
    && DistinctBelow(s.parts, c.ntasks)
    && (forall i :: 0 <= i < |s.parts| ==> s.results[i] == c.pack(s.parts[i], s.jobs[s.parts[i]].added))
  }

  ghost predicate CollectorInv(c: Config, s: State) {
    && (!s.headerStored ==> s.scheduled == 0 && s.collector.Idle?)
    && s.scheduled <= c.ntasks
    && match s.collector
       case Idle => s.emitted == []
       case Reading(cursor, count) =>
         cursor == count <= |s.results| && s.emitted == [c.header] + s.results[..cursor]
       case Closed => |s.results| >= c.ntasks && s.emitted == [c.header] + s.results[..c.ntasks]
  }

  ghost predicate Inv(c: Config, s: State) {
    && c.Valid() && |s.jobs| == |c.sizes| && |s.nodes| == |c.caps|
    && (forall p :: 0 <= p < |s.jobs| ==> JobInv(c, s, p))
    && (forall k :: 0 <= k < |s.nodes| ==> NodeInv(c, s, k))
    && ResultInv(c, s) && CollectorInv(c, s)
  }

  lemma CountTail<T>(s: seq<T>, x: T)
    requires |s| > 0
    ensures multiset(s)[x] == multiset(s[1..])[x] + if x == s[0] then 1 else 0
  {
    assert s == [s[0]] + s[1..];
  }

  lemma CountSnoc<T>(s: seq<T>, y: T, x: T)
    ensures multiset(s + [y])[x] == multiset(s)[x] + if x == y then 1 else 0
  {}

  /** The part of a job's invariant that speaks of the job alone. */
  predicate JobSound(c: Config, s: State, p: nat, job: Job)
    requires p < |c.sizes|
  {
    && job.phase != Waiting && job.node < |s.nodes|
    && (p < c.ntasks ==> p < s.scheduled) && job.enqueued <= c.sizes[p]
    && EndsRight(job, c.sizes[p])
  }

  /** A job and its node change together: the others keep what they have. */
  lemma JobAndNode(c: Config, s: State, p: nat, job: Job, node: Node, s': State)
    requires Inv(c, s) && Live(s, p) && job.node == s.jobs[p].node && JobSound(c, s, p, job)
    requires s' == SetNode(SetJob(s, p, job), job.node, node)
    requires forall i: nat :: node.Count(Request(p, i)) + job.Count(i) == if i < job.enqueued then 1 else 0
    requires forall r: Request :: r.job != p ==> node.Count(r) == s.nodes[job.node].Count(r)
    requires |node.requests| <= c.caps[job.node] && node.Busy() <= c.caps[job.node]
    ensures forall q :: 0 <= q < |s'.jobs| ==> JobInv(c, s', q)
    ensures forall k :: 0 <= k < |s'.nodes| ==> NodeInv(c, s', k)
  {
    forall q | 0 <= q < |s'.jobs|
      ensures JobInv(c, s', q)
    {
      assert JobInv(c, s, q);
    }
    forall k | 0 <= k < |s'.nodes|
      ensures NodeInv(c, s', k)
    {
      assert NodeInv(c, s, k);
      assert NodeInv(c, s, job.node);
    }
  }

  /** A job changes on its own. */
  lemma JobOnly(c: Config, s: State, p: nat, job: Job, s': State)
    requires Inv(c, s) && Live(s, p) && job.node == s.jobs[p].node && JobSound(c, s, p, job)
    requires s'.jobs == s.jobs[p := job] && s'.nodes == s.nodes && s'.scheduled == s.scheduled
    requires job.enqueued == s.jobs[p].enqueued && forall i: nat :: job.Count(i) == s.jobs[p].Count(i)
    ensures forall q :: 0 <= q < |s'.jobs| ==> JobInv(c, s', q)
    ensures forall k :: 0 <= k < |s'.nodes| ==> NodeInv(c, s', k)
  {
    forall q | 0 <= q < |s'.jobs|
      ensures JobInv(c, s', q)
    {
      assert JobInv(c, s, q);
      if q == p {
        assert Conserved(s, p);
      }
    }
    forall k | 0 <= k < |s'.nodes|
      ensures NodeInv(c, s', k)
    {
      assert NodeInv(c, s, k);
    }
  }

  /** A node changes on its own. */
  lemma NodeOnly(c: Config, s: State, k: nat, node: Node, s': State)
    requires Inv(c, s) && k < |s.nodes| && s' == SetNode(s, k, node)
    requires |node.requests| <= c.caps[k] && node.Busy() <= c.caps[k]
    requires forall r: Request :: node.Count(r) == s.nodes[k].Count(r)
    ensures Inv(c, s')
  {
    forall q | 0 <= q < |s'.jobs|
      ensures JobInv(c, s', q)
    {
      assert JobInv(c, s, q);
    }
    forall j | 0 <= j < |s'.nodes|
      ensures NodeInv(c, s', j)
    {
      assert NodeInv(c, s, j);
    }
  }

  lemma KeepsControl(c: Config, s: State, step: Step)
    requires Inv(c, s) && Enabled(c, s, step)
    requires step.StoreHeader? || step.Schedule? || step.StartCollecting? || step.Collect? || step.StopCollecting?
    ensures Inv(c, Perform(c, s, step))
  {
    var s' := Perform(c, s, step);
    forall p | 0 <= p < |s'.jobs|
      ensures JobInv(c, s', p)
    {
      assert JobInv(c, s, p);
    }
    forall k | 0 <= k < |s'.nodes|
      ensures NodeInv(c, s', k)
    {
      assert NodeInv(c, s, k);
    }
    if step.StopCollecting? {
      DistinctBound(s.parts, c.ntasks);
    }
  }

  lemma KeepsDelivery(c: Config, s: State, p: nat, job: Job, s': State)
    requires Inv(c, s) && p < |s.jobs| && s.jobs[p].phase == Waiting && (p < c.ntasks ==> p < s.scheduled)
    requires job.node < |s.nodes| && job == Fresh.(phase := job.phase, node := job.node)
             && job.phase in {Gathering, Lost}
    requires s' == SetJob(s, p, job)
    ensures Inv(c, s')
  {
    forall q | 0 <= q < |s'.jobs|
      ensures JobInv(c, s', q)
    {
      assert JobInv(c, s, q);
      if q == p {
        assert NodeInv(c, s, job.node);
      }
    }
    forall k | 0 <= k < |s'.nodes|
      ensures NodeInv(c, s', k)
    {
      assert NodeInv(c, s, k);
    }
  }

  /** Jobs of the same phase, and with the same fragments added, store the same results. */
  lemma KeepsResults(c: Config, s: State, s': State)
    requires Inv(c, s) && |s'.jobs| == |s.jobs| && s'.parts == s.parts && s'.results == s.results
    requires forall p :: 0 <= p < |s.jobs| ==>
               (s'.jobs[p].phase == Stored <==> s.jobs[p].phase == Stored)
               && (s.jobs[p].phase == Stored ==> s'.jobs[p].added == s.jobs[p].added)
    ensures ResultInv(c, s')
  {}

  lemma Requested(node: Node, next: Node, last: Request)
    requires next == node.(requests := node.requests + [last])
    ensures forall r: Request :: next.Count(r) == node.Count(r) + if r == last then 1 else 0
  {
    forall r: Request
      ensures next.Count(r) == node.Count(r) + if r == last then 1 else 0
    {
      CountSnoc(node.requests, last, r);
    }
  }

  lemma EnqueueConserves(s: State, p: nat, job: Job, node: Node)
    requires p < |s.jobs| && s.jobs[p].node < |s.nodes| && Conserved(s, p)
    requires job == s.jobs[p].(enqueued := s.jobs[p].enqueued + 1)
    requires node == s.nodes[job.node].(requests := s.nodes[job.node].requests + [Request(p, s.jobs[p].enqueued)])
    ensures forall i: nat :: node.Count(Request(p, i)) + job.Count(i) == if i < job.enqueued then 1 else 0
    ensures forall r: Request :: r.job != p ==> node.Count(r) == s.nodes[job.node].Count(r)
  {
    Requested(s.nodes[job.node], node, Request(p, s.jobs[p].enqueued));
  }

  lemma KeepsEnqueue(c: Config, s: State, p: nat)
    requires Inv(c, s) && Enabled(c, s, Enqueue(p))
    ensures Inv(c, Perform(c, s, Enqueue(p)))
  {
    var job, s' := s.jobs[p].(enqueued := s.jobs[p].enqueued + 1), Perform(c, s, Enqueue(p));
    var node := s.nodes[job.node].(requests := s.nodes[job.node].requests + [Request(p, s.jobs[p].enqueued)]);
    assert JobInv(c, s, p) && NodeInv(c, s, job.node);
    EnqueueConserves(s, p, job, node);
    JobAndNode(c, s, p, job, node, s');
    KeepsResults(c, s, s');
  }

  lemma KeepsTake(c: Config, s: State, k: nat)
    requires Inv(c, s) && Enabled(c, s, Take(k))
    ensures Inv(c, Perform(c, s, Take(k)))
  {
    var node, s' := s.nodes[k], Perform(c, s, Take(k));
    forall r: Request
      ensures s'.nodes[k].Count(r) == node.Count(r)
    {
      CountTail(node.requests, r);
    }
    assert NodeInv(c, s, k);
    NodeOnly(c, s, k, s'.nodes[k], s');
  }

  lemma KeepsFetch(c: Config, s: State, k: nat, r: Request, ok: bool)
    requires Inv(c, s) && Enabled(c, s, Fetch(k, r, ok))
    ensures Inv(c, Perform(c, s, Fetch(k, r, ok)))
  {
    var s' := Perform(c, s, Fetch(k, r, ok));
    assert NodeInv(c, s, k);
    NodeOnly(c, s, k, s'.nodes[k], s');
  }

  /** A request held by a node is one of a job of that node. */
  lemma Holder(c: Config, s: State, k: nat, r: Request)
    requires Inv(c, s) && k < |s.nodes| && s.nodes[k].Count(r) > 0
    ensures Live(s, r.job) && s.jobs[r.job].node == k && Conserved(s, r.job) && JobSound(c, s, r.job, s.jobs[r.job])
    ensures |s.nodes[k].requests| <= c.caps[k] && s.nodes[k].Busy() <= c.caps[k]
  {
    assert NodeInv(c, s, k);
    assert JobInv(c, s, r.job);
  }

  /** A request moves from a node to one of the channels of its job. */
  lemma Sent(c: Config, s: State, k: nat, r: Request, job: Job, node: Node, s': State)
    requires Inv(c, s) && k < |s.nodes| && s.nodes[k].Count(r) > 0
    requires r.job < |s.jobs| && s' == SetNode(SetJob(s, r.job, job), k, node)
    requires job == s.jobs[r.job].(fragments := job.fragments, errors := job.errors)
    requires forall i: nat :: job.Count(i) == s.jobs[r.job].Count(i) + if i == r.index then 1 else 0
    requires forall q: Request :: node.Count(q) == s.nodes[k].Count(q) - if q == r then 1 else 0
    requires node.requests == s.nodes[k].requests && node.Busy() <= s.nodes[k].Busy()
    ensures Inv(c, s')
  {
    Holder(c, s, k, r);
    JobAndNode(c, s, r.job, job, node, s');
    KeepsResults(c, s, s');
  }

  lemma KeepsSendFragment(c: Config, s: State, k: nat, r: Request)
    requires Inv(c, s) && Enabled(c, s, SendFragment(k, r))
    ensures Inv(c, Perform(c, s, SendFragment(k, r)))
  {
    var job, node := s.jobs[r.job], s.nodes[k];
    var next := job.(fragments := job.fragments + [r.index]);
    forall i: nat
      ensures next.Count(i) == job.Count(i) + if i == r.index then 1 else 0
    {
      CountSnoc(job.fragments, r.index, i);
    }
    Sent(c, s, k, r, next, node.(good := node.good - multiset{r}), Perform(c, s, SendFragment(k, r)));
  }

  lemma KeepsSendError(c: Config, s: State, k: nat, r: Request)
    requires Inv(c, s) && Enabled(c, s, SendError(k, r))
    ensures Inv(c, Perform(c, s, SendError(k, r)))
  {
    var job, node := s.jobs[r.job], s.nodes[k];
    var next := job.(errors := job.errors + [r.index]);
    forall i: nat
      ensures next.Count(i) == job.Count(i) + if i == r.index then 1 else 0
    {
      CountSnoc(job.errors, r.index, i);
    }
    Sent(c, s, k, r, next, node.(bad := node.bad - multiset{r}), Perform(c, s, SendError(k, r)));
  }

  lemma KeepsAdd(c: Config, s: State, p: nat)
    requires Inv(c, s) && Enabled(c, s, AddFragment(p))
    ensures Inv(c, Perform(c, s, AddFragment(p)))
  {
    var s' := Perform(c, s, AddFragment(p));
    var job, next := s.jobs[p], s'.jobs[p];
    assert JobInv(c, s, p);
    forall i: nat
      ensures next.Count(i) == job.Count(i)
    {
      CountTail(job.fragments, i);
      CountSnoc(job.added, job.fragments[0], i);
    }
    JobOnly(c, s, p, next, s');
    KeepsResults(c, s, s');
  }

  lemma KeepsTakeError(c: Config, s: State, step: Step)
    requires Inv(c, s) && Enabled(c, s, step) && (step.TakeError? || step.DrainError?)
    ensures Inv(c, Perform(c, s, step))
  {
    var p, s' := step.job, Perform(c, s, step);
    var job, next := s.jobs[p], s'.jobs[p];
    assert JobInv(c, s, p);
    ErrorTaken(job, next);
    JobOnly(c, s, p, next, s');
    KeepsResults(c, s, s');
  }

  lemma ErrorTaken(job: Job, next: Job)
    requires |job.errors| > 0 && next.errors == job.errors[1..] && next.dropped == job.dropped + [job.errors[0]]
    requires next.fragments == job.fragments && next.added == job.added
    ensures forall i: nat :: next.Count(i) == job.Count(i)
  {
    forall i: nat
      ensures next.Count(i) == job.Count(i)
    {
      CountTail(job.errors, i);
      CountSnoc(job.dropped, job.errors[0], i);
    }
  }

  lemma KeepsEnd(c: Config, s: State, step: Step)
    requires Inv(c, s) && Enabled(c, s, step) && (step.Return? || step.Pack? || step.StoreFails?)
    ensures Inv(c, Perform(c, s, step))
  {
    var p, s' := step.job, Perform(c, s, step);
    assert JobInv(c, s, p);
    JobOnly(c, s, p, s'.jobs[p], s');
    KeepsResults(c, s, s');
  }

  lemma KeepsStore(c: Config, s: State, p: nat)
    requires Inv(c, s) && Enabled(c, s, Store(p))
    ensures Inv(c, Perform(c, s, Store(p)))
  {
    var s' := Perform(c, s, Store(p));
    assert JobInv(c, s, p);
    JobOnly(c, s, p, s'.jobs[p], s');
  }

  /** Every step keeps the invariant. */
  lemma StepKeeps(c: Config, s: State, step: Step)
    requires Inv(c, s) && Enabled(c, s, step)
    ensures Inv(c, Perform(c, s, step))
  {
    match step
    case StoreHeader => KeepsControl(c, s, step);
    case Schedule => KeepsControl(c, s, step);
    case Deliver(p, k) => KeepsDelivery(c, s, p, Fresh.(phase := Gathering, node := k), Perform(c, s, step));
    case Drop(p) => KeepsDelivery(c, s, p, Fresh.(phase := Lost), Perform(c, s, step));
    case Enqueue(p) => KeepsEnqueue(c, s, p);
    case Take(k) => KeepsTake(c, s, k);
    case Fetch(k, r, ok) => KeepsFetch(c, s, k, r, ok);
    case SendFragment(k, r) => KeepsSendFragment(c, s, k, r);
    case SendError(k, r) => KeepsSendError(c, s, k, r);
    case AddFragment(p) => KeepsAdd(c, s, p);
    case TakeError(_) => KeepsTakeError(c, s, step);
    case DrainError(_) => KeepsTakeError(c, s, step);
    case Return(_) => KeepsEnd(c, s, step);
    case Pack(_) => KeepsEnd(c, s, step);
    case Store(p) => KeepsStore(c, s, p);
    case StoreFails(_) => KeepsEnd(c, s, step);
    case StartCollecting => KeepsControl(c, s, step);
    case Collect(_) => KeepsControl(c, s, step);
    case StopCollecting => KeepsControl(c, s, step);
  }

  lemma {:induction false} RunKeeps(c: Config, s: State, steps: seq<Step>, end: State)
    requires Inv(c, s) && Reaches(c, s, steps, end)
    ensures Inv(c, end)
    decreases |steps|
  {
    if |steps| > 0 {
      StepKeeps(c, s, steps[0]);
      RunKeeps(c, Perform(c, s, steps[0]), steps[1..], end);
    }
  }

  lemma ReachableInv(c: Config, s: State)
    requires Reachable(c, s)
    ensures Inv(c, s)
  {
    var init: State, steps: seq<Step> :|
      Init(c, init) && |init.jobs| == |c.sizes| && |init.nodes| == |c.caps| && Reaches(c, init, steps, s);
    RunKeeps(c, init, steps, s);
  }

  /*
   * What holds in every reachable state
   */

  predicate AtMostOnce(s: seq<nat>, i: nat, n: nat) {
    multiset(s)[i] <= if i < n then 1 else 0
  }

  lemma OnceDistinct(s: seq<nat>, n: nat)
    requires forall i: nat :: AtMostOnce(s, i, n)
    ensures DistinctBelow(s, n)
  {
    forall i | 0 <= i < |s|
      ensures s[i] < n
    {
      assert s[i] in multiset(s);
      assert AtMostOnce(s, s[i], n);
    }
    forall i, j | 0 <= i < j < |s|
      ensures s[i] != s[j]
    {
      assert s == s[..j] + [s[j]] + s[j + 1..];
      assert s[i] in s[..j];
      assert multiset(s)[s[j]] == multiset(s[..j])[s[j]] + 1 + multiset(s[j + 1..])[s[j]];
      assert AtMostOnce(s, s[j], n);
    }
  }

  /** Where a request may be, counted. */
  lemma InOnePlace(c: Config, s: State, p: nat, i: nat)
    requires Inv(c, s) && Live(s, p)
    ensures s.nodes[s.jobs[p].node].Count(Request(p, i)) + s.jobs[p].Count(i) <= if i < c.sizes[p] then 1 else 0
  {
    assert JobInv(c, s, p);
    assert Conserved(s, p);
  }

  lemma JobDistinct(c: Config, s: State, p: nat)
    requires Inv(c, s) && Live(s, p)
    ensures DistinctBelow(s.jobs[p].fragments, c.sizes[p]) && DistinctBelow(s.jobs[p].errors, c.sizes[p])
    ensures DistinctBelow(s.jobs[p].added, c.sizes[p])
  {
    var job, n := s.jobs[p], c.sizes[p];
    forall i: nat
      ensures AtMostOnce(job.fragments, i, n) && AtMostOnce(job.errors, i, n) && AtMostOnce(job.added, i, n)
    {
      InOnePlace(c, s, p, i);
    }
    OnceDistinct(job.fragments, n);
    OnceDistinct(job.errors, n);
    OnceDistinct(job.added, n);
  }

  /** A job that packed its result added every fragment exactly once, and none of its fetches failed. */
  lemma PackedIsWhole(c: Config, s: State, p: nat)
    requires Reachable(c, s) && p < |s.jobs| && s.jobs[p].phase in {Packed, Stored}
    ensures p < |c.sizes| && Whole(s.jobs[p].added, c.sizes[p])
    ensures s.jobs[p].errors == [] && s.jobs[p].dropped == []
    ensures s.jobs[p].node < |s.nodes| && forall i: nat :: s.nodes[s.jobs[p].node].bad[Request(p, i)] == 0
  {
    ReachableInv(c, s);
    assert JobInv(c, s, p);
    JobDistinct(c, s, p);
    var job := s.jobs[p];
    assert job.errors == [] || job.errors[0] in multiset(job.errors);
    assert job.dropped == [] || job.dropped[0] in multiset(job.dropped);
    DistinctBound(job.added, c.sizes[p]);
    forall i: nat
      ensures multiset(job.errors)[i] == multiset(job.dropped)[i] == s.nodes[job.node].bad[Request(p, i)] == 0
    {
      InOnePlace(c, s, p, i);
      assert i < c.sizes[p] ==> i in job.added;
      assert i < c.sizes[p] ==> i in multiset(job.added);
    }
  }

  lemma RoomInChannel(channel: seq<nat>, i: nat, n: nat, cap: nat)
    requires DistinctBelow(channel, n) && i < n <= cap && i !in channel
    ensures |channel| < cap
  {
    DistinctBound(channel, n);
  }

  /**
   * When a job has no more fragments than its node has workers, no worker ever
   * waits to send to the job's channels, also after gather() has returned.
   */
  lemma NoWorkerBlocks(c: Config, s: State, k: nat, r: Request)
    requires Reachable(c, s) && k < |s.nodes| && |s.nodes| == |c.caps| && |s.jobs| == |c.sizes|
    requires r.job < |s.jobs| && c.sizes[r.job] <= c.caps[k]
    ensures r in s.nodes[k].good ==> Enabled(c, s, SendFragment(k, r))
    ensures r in s.nodes[k].bad ==> Enabled(c, s, SendError(k, r))
  {
    ReachableInv(c, s);
    if s.nodes[k].Count(r) > 0 {
      Holder(c, s, k, r);
      JobDistinct(c, s, r.job);
      var job := s.jobs[r.job];
      if r in s.nodes[k].good || r in s.nodes[k].bad {
        InOnePlace(c, s, r.job, r.index);
        assert r.index !in multiset(job.fragments) && r.index !in multiset(job.errors);
        RoomInChannel(job.fragments, r.index, c.sizes[r.job], c.caps[k]);
        RoomInChannel(job.errors, r.index, c.sizes[r.job], c.caps[k]);
      }
    }
  }

  /** What a job packs after adding every fragment once, in some order. */
  ghost predicate WholeResult(c: Config, p: nat, result: seq<Byte>) {
    p < |c.sizes| && exists added :: Whole(added, c.sizes[p]) && result == c.pack(p, added)
  }

  /**
   * The result stream never has more entries than there are tasks, no two of
   * the same part, none before the header is stored, and each is a whole result.
   */
  lemma ResultsSound(c: Config, s: State)
    requires Reachable(c, s)
    ensures |s.results| == |s.parts| <= c.ntasks <= |c.sizes| && DistinctBelow(s.parts, c.ntasks)
    ensures |s.results| > 0 ==> s.headerStored
    ensures forall i :: 0 <= i < |s.parts| ==> WholeResult(c, s.parts[i], s.results[i])
  {
    ReachableInv(c, s);
    DistinctBound(s.parts, c.ntasks);
    forall i | 0 <= i < |s.parts|
      ensures s.headerStored && WholeResult(c, s.parts[i], s.results[i])
    {
      var p := s.parts[i];
      assert p in s.parts;
      assert JobInv(c, s, p);
      PackedIsWhole(c, s, p);
    }
    if |s.results| > 0 {
      assert WholeResult(c, s.parts[0], s.results[0]);
    }
  }

  /** The stream is complete, as Status and Get see it, exactly when every task is stored. */
  lemma FinishedIffAllStored(c: Config, s: State)
    requires Reachable(c, s) && |s.jobs| >= c.ntasks
    ensures |s.results| == c.ntasks <==> forall p :: 0 <= p < c.ntasks ==> s.jobs[p].phase == Stored
    ensures |s.results| >= c.ntasks <==> |s.results| == c.ntasks
  {
    ReachableInv(c, s);
    DistinctBound(s.parts, c.ntasks);
    if forall p :: 0 <= p < c.ntasks ==> s.jobs[p].phase == Stored {
      forall p: nat | p < c.ntasks
        ensures p in s.parts
      {
        assert s.jobs[p].phase == Stored;
      }
      AllBelow(s.parts, c.ntasks);
    }
    if |s.results| == c.ntasks {
      forall p | 0 <= p < c.ntasks
        ensures s.jobs[p].phase == Stored
      {
        assert p in s.parts;
      }
    }
  }

  lemma {:induction false} AllBelow(s: seq<nat>, n: nat)
    requires DistinctBelow(s, n) && forall p: nat :: p < n ==> p in s
    ensures |s| == n
  {
    assert |s| == 0 || s[0] < n;
    if n > 0 {
      var last: nat := n - 1;
      assert last in s;
      var k :| 0 <= k < |s| && s[k] == last;
      WithoutLargest(s, n - 1, k);
      var t := s[..k] + s[k + 1..];
      forall p: nat | p < n - 1
        ensures p in t
      {
        assert p in s;
        var j :| 0 <= j < |s| && s[j] == p;
        assert t[if j < k then j else j - 1] == p;
      }
      AllBelow(t, n - 1);
    }
  }

  /**
   * A collector emits the header and then results, in the order of the stream;
   * when it stops, it has emitted the result of every task, each once.
   */
  lemma CollectedSound(c: Config, s: State)
    requires Reachable(c, s)
    ensures || s.emitted == []
            || (0 < |s.emitted| <= |s.results| + 1 && s.emitted == [c.header] + s.results[..|s.emitted| - 1])
    ensures s.collector.Closed? ==> |s.emitted| == c.ntasks + 1 && |s.results| == c.ntasks
  {
    ReachableInv(c, s);
    ResultsSound(c, s);
  }

  /*
   * Building runs
   */

  lemma {:induction false} ReachesOneMore(c: Config, s: State, steps: seq<Step>, mid: State, step: Step)
    requires c.Valid() && |s.jobs| == |c.sizes| && |s.nodes| == |c.caps| && Reaches(c, s, steps, mid)
    requires |mid.jobs| == |c.sizes| && |mid.nodes| == |c.caps| && Enabled(c, mid, step)
    ensures Reaches(c, s, steps + [step], Perform(c, mid, step))
    decreases |steps|
  {
    if |steps| == 0 {
      assert ([step])[1..] == [];
    } else {
      assert (steps + [step])[1..] == steps[1..] + [step];
      ReachesOneMore(c, Perform(c, s, steps[0]), steps[1..], mid, step);
    }
  }

  lemma ReachableStep(c: Config, s: State, step: Step)
    requires Reachable(c, s) && |s.jobs| == |c.sizes| && |s.nodes| == |c.caps| && Enabled(c, s, step)
    ensures Reachable(c, Perform(c, s, step))
  {
    var init: State, steps: seq<Step> :|
      Init(c, init) && |init.jobs| == |c.sizes| && |init.nodes| == |c.caps| && Reaches(c, init, steps, s);
    ReachesOneMore(c, init, steps, s, step);
  }
}
