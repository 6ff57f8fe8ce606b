/**
 * Runs, step by step: from a state in which a job is not delivered yet, and a
 * node is not in use, the job goes through the node on its own.
 */
module Runs {
  import opened Distributed

  const UNUSED: Node := Node([], multiset{}, multiset{}, multiset{})

  /** Nothing has happened but that the first n tasks of the query are scheduled. */
  function Scheduled(c: Config, n: nat): State
    requires c.Valid()
  {
    State(true, n, seq(|c.sizes|, _ => Fresh), seq(|c.caps|, _ => UNUSED), [], [], Idle, [])
  }

  lemma {:induction false} ScheduleTasks(c: Config, n: nat)
    requires c.Valid() && n <= c.ntasks
    ensures Reachable(c, Scheduled(c, n))
  {
    if n == 0 {
      var init := Scheduled(c, 0).(headerStored := false);
      assert Reaches(c, init, [], init);
      ReachableStep(c, init, StoreHeader);
    } else {
      ScheduleTasks(c, n - 1);
      ReachableStep(c, Scheduled(c, n - 1), Schedule);
    }
  }

  /** The base state, but for job p and node k. */
  function On(base: State, p: nat, k: nat, job: Job, node: Node): State
    requires p < |base.jobs| && k < |base.nodes|
  {
    SetNode(SetJob(base, p, job), k, node)
  }

  /** Job p can be in this state, and node k in that one, with everything else as it is in the base. */
  ghost predicate Possible(c: Config, base: State, p: nat, k: nat, job: Job, node: Node) {
    && c.Valid() && |base.jobs| == |c.sizes| && |base.nodes| == |c.caps| && p < |c.sizes| && k < |c.caps|
    && Reachable(c, On(base, p, k, job, node))
  }

  /** The job may be delivered to the node, which does nothing yet. */
  ghost predicate Ready(c: Config, base: State, p: nat, k: nat) {
    && Reachable(c, base) && |base.jobs| == |c.sizes| && |base.nodes| == |c.caps| && p < |c.sizes| && k < |c.caps|
    && base.jobs[p] == Fresh && base.nodes[k] == UNUSED && (p < c.ntasks ==> p < base.scheduled)
  }

  lemma Deliverable(c: Config, base: State, p: nat, k: nat)
    requires Ready(c, base, p, k)
    ensures Possible(c, base, p, k, Fresh.(phase := Gathering, node := k), UNUSED)
  {
    var job := Fresh.(phase := Gathering, node := k);
    ReachableStep(c, base, Deliver(p, k));
    assert SetJob(base, p, job).nodes[k := UNUSED] == base.nodes;
  }

  /** A step that changes the job and the node. */
  lemma Next(c: Config, base: State, p: nat, k: nat, job: Job, node: Node, step: Step, job': Job, node': Node)
    requires Possible(c, base, p, k, job, node) && Enabled(c, On(base, p, k, job, node), step)
    requires Perform(c, On(base, p, k, job, node), step) == On(base, p, k, job', node')
    ensures Possible(c, base, p, k, job', node')
  {
    ReachableStep(c, On(base, p, k, job, node), step);
  }

  /** The next request of a job is in the channel. */
  lemma Enqueued(c: Config, base: State, p: nat, k: nat, job: Job)
    requires Possible(c, base, p, k, job, UNUSED) && c.caps[k] > 0
    requires job.phase in {Gathering, GivenUp} && job.node == k && job.enqueued < c.sizes[p]
    ensures Possible(c, base, p, k, job.(enqueued := job.enqueued + 1),
              Node([Request(p, job.enqueued)], multiset{}, multiset{}, multiset{}))
  {
    var r, next := Request(p, job.enqueued), job.(enqueued := job.enqueued + 1);
    var queued := Node([r], multiset{}, multiset{}, multiset{});
    assert [] + [r] == [r];
    var s := Perform(c, On(base, p, k, job, UNUSED), Enqueue(p));
    assert s.nodes == On(base, p, k, next, queued).nodes;
    assert s.jobs == On(base, p, k, next, queued).jobs;
    Next(c, base, p, k, job, UNUSED, Enqueue(p), next, queued);
  }

  /** A worker takes it. */
  lemma Taken(c: Config, base: State, p: nat, k: nat, job: Job, r: Request)
    requires Possible(c, base, p, k, job, Node([r], multiset{}, multiset{}, multiset{})) && c.caps[k] > 0
    ensures Possible(c, base, p, k, job, Node([], multiset{r}, multiset{}, multiset{}))
  {
    var queued, taken := Node([r], multiset{}, multiset{}, multiset{}), Node([], multiset{r}, multiset{}, multiset{});
    assert [r][1..] == [] && multiset{} + multiset{r} == multiset{r};
    assert Perform(c, On(base, p, k, job, queued), Take(k)).nodes == On(base, p, k, job, taken).nodes;
    Next(c, base, p, k, job, queued, Take(k), job, taken);
  }

  /** A worker holds the next fragment of a job, or an error for it. */
  function Holding(r: Request, ok: bool): Node {
    if ok then Node([], multiset{}, multiset{r}, multiset{}) else Node([], multiset{}, multiset{}, multiset{r})
  }

  lemma Fetched(c: Config, base: State, p: nat, k: nat, job: Job, ok: bool)
    requires Possible(c, base, p, k, job, UNUSED) && c.caps[k] > 0
    requires job.phase in {Gathering, GivenUp} && job.node == k && job.enqueued < c.sizes[p]
    ensures Possible(c, base, p, k, job.(enqueued := job.enqueued + 1), Holding(Request(p, job.enqueued), ok))
  {
    var r, next := Request(p, job.enqueued), job.(enqueued := job.enqueued + 1);
    Enqueued(c, base, p, k, job);
    Taken(c, base, p, k, next, r);
    var taken := Node([], multiset{r}, multiset{}, multiset{});
    assert multiset{r} - multiset{r} == multiset{} && multiset{} + multiset{r} == multiset{r};
    assert Perform(c, On(base, p, k, next, taken), Fetch(k, r, ok)).nodes
        == On(base, p, k, next, Holding(r, ok)).nodes;
    Next(c, base, p, k, next, taken, Fetch(k, r, ok), next, Holding(r, ok));
  }

  /** gather() adds the one fragment that is there. */
  lemma FragmentAdded(c: Config, base: State, p: nat, k: nat, job: Job, i: nat)
    requires Possible(c, base, p, k, job.(fragments := [i]), UNUSED)
    requires job.phase == Gathering && job.node == k && job.fragments == [] && |job.added| < c.sizes[p]
    ensures Possible(c, base, p, k, job.(added := job.added + [i]), UNUSED)
  {
    var sent, next := job.(fragments := [i]), job.(added := job.added + [i]);
    assert [i][1..] == [];
    assert Perform(c, On(base, p, k, sent, UNUSED), AddFragment(p)).jobs == On(base, p, k, next, UNUSED).jobs;
    Next(c, base, p, k, sent, UNUSED, AddFragment(p), next, UNUSED);
  }

  /** A worker sends the fragment it holds. */
  lemma FragmentSent(c: Config, base: State, p: nat, k: nat, job: Job, i: nat)
    requires Possible(c, base, p, k, job, Holding(Request(p, i), true))
    requires job.phase != Waiting && job.node == k && |job.fragments| < c.caps[k]
    ensures Possible(c, base, p, k, job.(fragments := job.fragments + [i]), UNUSED)
  {
    var r, next := Request(p, i), job.(fragments := job.fragments + [i]);
    var s := On(base, p, k, job, Holding(r, true));
    assert multiset{r} - multiset{r} == multiset{};
    assert Perform(c, s, SendFragment(k, r)).nodes == On(base, p, k, next, UNUSED).nodes;
    assert Perform(c, s, SendFragment(k, r)).jobs == On(base, p, k, next, UNUSED).jobs;
    Next(c, base, p, k, job, Holding(r, true), SendFragment(k, r), next, UNUSED);
  }
}
