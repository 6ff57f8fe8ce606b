/**
 * Runs that finish: when the collector can stop at all, and that the results
 * may then be stored in any order.
 */
module FinishedRuns {
  import opened Lists
  import opened Distributed
  import opened Runs

  /** Some node has a worker for the job; a job without fragments needs none. */
  ghost predicate Servable(c: Config, p: nat)
    requires p < |c.sizes|
  {
    exists k: nat :: Serves(c, p, k)
  }

  predicate Serves(c: Config, p: nat, k: nat)
    requires p < |c.sizes|
  {
    k < |c.caps| && (c.sizes[p] > 0 ==> c.caps[k] > 0)
  }

  /*
   * One job
   */

  /** The first m fragments are fetched and added. */
  function Halfway(k: nat, m: nat): Job {
    Job(Gathering, k, m, [], [], Range(m), [])
  }

  lemma OneMoreAdded(c: Config, base: State, p: nat, k: nat, m: nat)
    requires Possible(c, base, p, k, Halfway(k, m), UNUSED) && c.caps[k] > 0 && m < c.sizes[p]
    ensures Possible(c, base, p, k, Halfway(k, m + 1), UNUSED)
  {
    Fetched(c, base, p, k, Halfway(k, m), true);
    var job := Halfway(k, m).(enqueued := m + 1);
    FragmentSent(c, base, p, k, job, m);
    assert job.fragments + [m] == [m];
    FragmentAdded(c, base, p, k, job, m);
    assert Range(m) + [m] == Range(m + 1);
  }

  lemma {:induction false} FragmentsAdded(c: Config, base: State, p: nat, k: nat, m: nat)
    requires Ready(c, base, p, k) && Serves(c, p, k) && m <= c.sizes[p]
    ensures Possible(c, base, p, k, Halfway(k, m), UNUSED)
  {
    if m == 0 {
      Deliverable(c, base, p, k);
      assert Halfway(k, 0) == Fresh.(phase := Gathering, node := k);
    } else {
      FragmentsAdded(c, base, p, k, m - 1);
      OneMoreAdded(c, base, p, k, m - 1);
    }
  }

  lemma TaskPacked(c: Config, base: State, p: nat, k: nat)
    requires Ready(c, base, p, k) && Serves(c, p, k)
    ensures Possible(c, base, p, k, Halfway(k, c.sizes[p]).(phase := Packed), UNUSED)
  {
    var job := Halfway(k, c.sizes[p]);
    FragmentsAdded(c, base, p, k, c.sizes[p]);
    var packed := job.(phase := Packed);
    assert Perform(c, On(base, p, k, job, UNUSED), Pack(p)).jobs == On(base, p, k, packed, UNUSED).jobs;
    Next(c, base, p, k, job, UNUSED, Pack(p), packed, UNUSED);
  }

  /** A task of the query goes through a node, and its result is stored. */
  lemma TaskStored(c: Config, base: State, p: nat, k: nat) returns (s: State)
    requires Ready(c, base, p, k) && Serves(c, p, k) && p < c.ntasks
    ensures Reachable(c, s) && |s.jobs| == |c.sizes|
    ensures s == base.(jobs := base.jobs[p := s.jobs[p]], parts := base.parts + [p],
                       results := base.results + [c.pack(p, Range(c.sizes[p]))])
  {
    TaskPacked(c, base, p, k);
    var last := On(base, p, k, Halfway(k, c.sizes[p]).(phase := Packed), UNUSED);
    ReachableStep(c, last, Store(p));
    s := Perform(c, last, Store(p));
    assert s.nodes == base.nodes;
    assert s.jobs == base.jobs[p := s.jobs[p]];
  }

  /*
   * All jobs
   */

  /** All tasks are scheduled, those of the list are stored, in its order, and nobody else has started. */
  ghost predicate StoredInOrder(c: Config, done: seq<nat>, s: State) {
    && Reachable(c, s) && |s.jobs| == |c.sizes| && |s.nodes| == |c.caps|
    && s.headerStored && s.scheduled == c.ntasks && s.collector == Idle
    && s.parts == done && |s.results| == |done|
    && (forall p :: 0 <= p < |s.jobs| && p !in done ==> s.jobs[p] == Fresh)
    && (forall k :: 0 <= k < |s.nodes| ==> s.nodes[k] == UNUSED)
  }

  lemma {:induction false} StoreAll(c: Config, done: seq<nat>) returns (s: State)
    requires c.Valid() && DistinctBelow(done, c.ntasks)
    requires forall p :: 0 <= p < c.ntasks ==> Servable(c, p)
    ensures StoredInOrder(c, done, s)
    decreases |done|
  {
    if |done| == 0 {
      ScheduleTasks(c, c.ntasks);
      s := Scheduled(c, c.ntasks);
    } else {
      var front, p := done[..|done| - 1], done[|done| - 1];
      assert done == front + [p] && p !in front;
      var base := StoreAll(c, front);
      assert Servable(c, p);
      var k: nat :| Serves(c, p, k);
      s := TaskStored(c, base, p, k);
    }
  }

  /** The results of all tasks can be stored in every order, and the collector emits them all and stops. */
  lemma FinishInOrder(c: Config, order: seq<nat>) returns (s: State)
    requires c.Valid() && Whole(order, c.ntasks) && forall p :: 0 <= p < c.ntasks ==> Servable(c, p)
    ensures Reachable(c, s) && s.collector.Closed? && s.parts == order
  {
    var stored := StoreAll(c, order);
    ReachableStep(c, stored, StartCollecting);
    s := Perform(c, stored, StartCollecting);
    if c.ntasks > 0 {
      ReachableStep(c, s, Collect(c.ntasks));
      s := Perform(c, s, Collect(c.ntasks));
    }
    ReachableStep(c, s, StopCollecting);
    s := Perform(c, s, StopCollecting);
  }

  /*
   * What a finished run needs
   */

  /** A job that got a request to its node is at a node with workers. */
  ghost predicate AtWorkers(c: Config, s: State) {
    |s.jobs| == |c.sizes| && |s.nodes| == |c.caps| && forall p :: 0 <= p < |s.jobs| ==> JobAtWorkers(c, s.jobs[p])
  }

  predicate JobAtWorkers(c: Config, job: Job) {
    job.enqueued > 0 ==> job.node < |c.caps| && c.caps[job.node] > 0
  }

  lemma StepAtWorkers(c: Config, s: State, step: Step)
    requires c.Valid() && AtWorkers(c, s) && Enabled(c, s, step)
    ensures AtWorkers(c, Perform(c, s, step))
  {
    var s' := Perform(c, s, step);
    forall p | 0 <= p < |s'.jobs|
      ensures JobAtWorkers(c, s'.jobs[p])
    {
      assert JobAtWorkers(c, s.jobs[p]);
    }
  }

  lemma {:induction false} RunAtWorkers(c: Config, s: State, steps: seq<Step>, end: State)
    requires c.Valid() && AtWorkers(c, s) && Reaches(c, s, steps, end)
    ensures AtWorkers(c, end)
    decreases |steps|
  {
    if |steps| > 0 {
      StepAtWorkers(c, s, steps[0]);
      RunAtWorkers(c, Perform(c, s, steps[0]), steps[1..], end);
    }
  }

  lemma ReachableAtWorkers(c: Config, s: State)
    requires Reachable(c, s)
    ensures AtWorkers(c, s)
  {
    var init: State, steps: seq<Step> :|
      Init(c, init) && |init.jobs| == |c.sizes| && |init.nodes| == |c.caps| && Reaches(c, init, steps, s);
    RunAtWorkers(c, init, steps, s);
  }

  /** A stored job had a node with a worker. */
  lemma StoredServable(c: Config, s: State, p: nat)
    requires Reachable(c, s) && p < |c.sizes| == |s.jobs| && s.jobs[p].phase == Stored
    ensures Servable(c, p)
  {
    ReachableInv(c, s);
    ReachableAtWorkers(c, s);
    var job := s.jobs[p];
    assert JobInv(c, s, p) && JobAtWorkers(c, job);
    if c.sizes[p] > 0 {
      assert Conserved(s, p);
      assert job.added[0] in multiset(job.added);
      assert job.Count(job.added[0]) > 0;
    }
    assert Serves(c, p, job.node);
  }

  /** Some run of the system ends with the collector having emitted everything. */
  ghost predicate MayFinish(c: Config) {
    exists s: State :: Reachable(c, s) && s.collector.Closed?
  }

  /** For every system: the collector may finish if and only if there is a node to serve every task. */
  lemma FinishesIff(c: Config)
    requires c.Valid()
    ensures MayFinish(c) <==> forall p :: 0 <= p < c.ntasks ==> Servable(c, p)
  {
    if MayFinish(c) {
      var s: State :| Reachable(c, s) && s.collector.Closed?;
      ReachableInv(c, s);
      CollectedSound(c, s);
      FinishedIffAllStored(c, s);
      forall p | 0 <= p < c.ntasks
        ensures Servable(c, p)
      {
        StoredServable(c, s, p);
      }
    }
    if forall p :: 0 <= p < c.ntasks ==> Servable(c, p) {
      RangeIsWhole(c.ntasks);
      var s := FinishInOrder(c, Range(c.ntasks));
    }
  }
}
