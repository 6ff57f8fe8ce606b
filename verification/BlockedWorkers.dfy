/**
 * Workers that wait for good. gather() stops reading after an error, while the
 * requests of its job keep being fetched, and every fetch ends with a send on
 * one of the job's channels.
 */
module BlockedWorkers {
  import opened Lists
  import opened Distributed
  import opened Runs

  predicate Holds(s: State, k: nat, r: Request) {
    k < |s.nodes| && (r in s.nodes[k].good || r in s.nodes[k].bad)
  }

  /** The worker that holds a request can send. */
  predicate CanSend(c: Config, s: State, k: nat, r: Request)
    requires c.Valid() && |s.jobs| == |c.sizes| && |s.nodes| == |c.caps|
  {
    Enabled(c, s, SendFragment(k, r)) || Enabled(c, s, SendError(k, r))
  }

  /** gather() can read from one of the channels of a job. */
  predicate CanRead(c: Config, s: State, p: nat)
    requires c.Valid() && |s.jobs| == |c.sizes| && |s.nodes| == |c.caps|
  {
    Enabled(c, s, AddFragment(p)) || Enabled(c, s, TakeError(p)) || Enabled(c, s, DrainError(p))
  }

  /** A worker holds something for a full channel that nobody reads any more. */
  predicate Stuck(c: Config, s: State, k: nat, r: Request)
    requires |s.nodes| == |c.caps|
  {
    k < |s.nodes| && r.job < |s.jobs| &&
    var job := s.jobs[r.job];
    || (r in s.nodes[k].good && job.phase in {GivenUp, Returned} && |job.fragments| >= c.caps[k])
    || (r in s.nodes[k].bad && job.phase == Returned && |job.errors| >= c.caps[k])
  }

  /** Once gather() has taken an error, the fragments are not read any more, and the errors not for long. */
  lemma NoLongerRead(c: Config, s: State, p: nat, step: Step)
    requires c.Valid() && |s.jobs| == |c.sizes| && |s.nodes| == |c.caps| && Enabled(c, s, step)
    requires p < |s.jobs| && s.jobs[p].phase in {GivenUp, Returned}
    ensures var job, job' := s.jobs[p], Perform(c, s, step).jobs[p];
            && job'.phase in {GivenUp, Returned} && |job'.fragments| >= |job.fragments|
            && (job.phase == Returned ==> job'.phase == Returned && |job'.errors| >= |job.errors|)
  {}

  /** A worker keeps what it holds until it sends it. */
  lemma StillHeld(c: Config, s: State, k: nat, r: Request, step: Step)
    requires c.Valid() && |s.jobs| == |c.sizes| && |s.nodes| == |c.caps| && Enabled(c, s, step) && k < |s.nodes|
    ensures r in s.nodes[k].good && step != SendFragment(k, r) ==> r in Perform(c, s, step).nodes[k].good
    ensures r in s.nodes[k].bad && step != SendError(k, r) ==> r in Perform(c, s, step).nodes[k].bad
  {}

  /** Such a worker stays stuck, whatever happens next. */
  lemma StuckStays(c: Config, s: State, k: nat, r: Request, step: Step)
    requires c.Valid() && |s.jobs| == |c.sizes| && |s.nodes| == |c.caps|
    requires Stuck(c, s, k, r) && Enabled(c, s, step)
    ensures Stuck(c, Perform(c, s, step), k, r)
  {
    NoLongerRead(c, s, r.job, step);
    StillHeld(c, s, k, r, step);
  }

  lemma {:induction false} StuckThroughout(
    c: Config, s: State, k: nat, r: Request, steps: seq<Step>, end: State)
    requires c.Valid() && |s.jobs| == |c.sizes| && |s.nodes| == |c.caps|
    requires Stuck(c, s, k, r) && Reaches(c, s, steps, end)
    ensures |end.nodes| == |c.caps| && Stuck(c, end, k, r)
    decreases |steps|
  {
    if |steps| > 0 {
      StuckStays(c, s, k, r, steps[0]);
      StuckThroughout(c, Perform(c, s, steps[0]), k, r, steps[1..], end);
    }
  }

  /** The fragments and errors of a job, and one of its requests that a worker holds, are all different. */
  lemma HeldApart(c: Config, s: State, k: nat, r: Request)
    requires Inv(c, s) && Holds(s, k, r)
    ensures Live(s, r.job) && s.jobs[r.job].node == k
    ensures var job := s.jobs[r.job];
            DistinctBelow(job.fragments + job.errors + job.added + job.dropped + [r.index], c.sizes[r.job])
  {
    Holder(c, s, k, r);
    var job, n := s.jobs[r.job], c.sizes[r.job];
    var all := job.fragments + job.errors + job.added + job.dropped + [r.index];
    forall i: nat
      ensures AtMostOnce(all, i, n)
    {
      InOnePlace(c, s, r.job, i);
    }
    OnceDistinct(all, n);
  }

  lemma HeldRoom(c: Config, s: State, k: nat, r: Request)
    requires Inv(c, s) && Holds(s, k, r)
    ensures Live(s, r.job) && s.jobs[r.job].node == k && c.caps[k] > 0
    ensures var job := s.jobs[r.job];
            |job.fragments| + |job.errors| + |job.added| + |job.dropped| + 1 <= c.sizes[r.job]
  {
    HeldApart(c, s, k, r);
    var job := s.jobs[r.job];
    DistinctBound(job.fragments + job.errors + job.added + job.dropped + [r.index], c.sizes[r.job]);
    Holder(c, s, k, r);
  }

  /**
   * A worker that is not stuck can send at once, or as soon as gather() has
   * read: every worker that waits is stuck, or is waited for.
   */
  lemma StuckOrServed(c: Config, s: State, k: nat, r: Request)
    requires Reachable(c, s) && |s.jobs| == |c.sizes| && |s.nodes| == |c.caps| && Holds(s, k, r)
    ensures Stuck(c, s, k, r) || CanSend(c, s, k, r) || CanRead(c, s, r.job)
  {
    ReachableInv(c, s);
    HeldRoom(c, s, k, r);
    assert JobInv(c, s, r.job);
    NotYetEnqueued(c, s, r);
  }

  lemma StuckCannotSend(c: Config, s: State, k: nat, r: Request)
    requires Inv(c, s) && Stuck(c, s, k, r)
    ensures !CanSend(c, s, k, r)
  {
    Holder(c, s, k, r);
    InOnePlace(c, s, r.job, r.index);
  }

  /** In no run that continues from here does a stuck worker send. */
  lemma StuckForever(c: Config, s: State, k: nat, r: Request, steps: seq<Step>, end: State)
    requires Reachable(c, s) && |s.jobs| == |c.sizes| && |s.nodes| == |c.caps|
    requires Stuck(c, s, k, r) && Reaches(c, s, steps, end)
    ensures |end.jobs| == |c.sizes| && |end.nodes| == |c.caps| && Stuck(c, end, k, r) && !CanSend(c, end, k, r)
  {
    ReachableInv(c, s);
    RunKeeps(c, s, steps, end);
    StuckThroughout(c, s, k, r, steps, end);
    StuckCannotSend(c, end, k, r);
  }

  /** Nothing is held for a job before its first request. */
  lemma NotYetEnqueued(c: Config, s: State, r: Request)
    requires Inv(c, s) && Live(s, r.job) && s.nodes[s.jobs[r.job].node].Count(r) > 0
    ensures s.jobs[r.job].enqueued > 0
  {
    assert JobInv(c, s, r.job) && Conserved(s, r.job);
    assert r == Request(r.job, r.index);
  }

  /** A worker is stuck only if the job has at least two fragments more than the node has workers. */
  lemma StuckNeeds(c: Config, s: State, k: nat, r: Request)
    requires Reachable(c, s) && |s.nodes| == |c.caps| && Stuck(c, s, k, r)
    ensures r.job < |c.sizes| && c.caps[k] > 0 && c.sizes[r.job] >= c.caps[k] + 2
  {
    ReachableInv(c, s);
    HeldRoom(c, s, k, r);
    assert JobInv(c, s, r.job);
  }

  /*
   * A run that blocks a worker
   */

  /** All tasks are scheduled, and nothing else has happened. */
  function Base(c: Config): State
    requires c.Valid()
  {
    Scheduled(c, c.ntasks)
  }

  /** After the first fetch of a job failed, and gather() took the error. */
  function Failed(k: nat, m: nat): Job {
    Job(GivenUp, k, m + 1, seq(m, i requires 0 <= i => i + 1), [], [], [0])
  }

  lemma FirstFetchFails(c: Config, p: nat, k: nat)
    requires c.Valid() && p < |c.sizes| && k < |c.caps| && c.caps[k] > 0 && c.sizes[p] > 0
    ensures Possible(c, Base(c), p, k, Failed(k, 0), UNUSED)
  {
    ScheduleTasks(c, c.ntasks);
    Deliverable(c, Base(c), p, k);
    var first := Fresh.(phase := Gathering, node := k);
    Fetched(c, Base(c), p, k, first, false);
    var r, job := Request(p, 0), Job(Gathering, k, 1, [], [0], [], []);
    var s := On(Base(c), p, k, first.(enqueued := 1), Holding(r, false));
    assert [] + [r.index] == [0] && multiset{r} - multiset{r} == multiset{};
    assert Perform(c, s, SendError(k, r)).nodes == On(Base(c), p, k, job, UNUSED).nodes;
    assert Perform(c, s, SendError(k, r)).jobs == On(Base(c), p, k, job, UNUSED).jobs;
    Next(c, Base(c), p, k, first.(enqueued := 1), Holding(r, false), SendError(k, r), job, UNUSED);
    assert [0][1..] == [] && [] + [0] == [0] && Failed(k, 0).fragments == [];
    assert Perform(c, On(Base(c), p, k, job, UNUSED), TakeError(p)).jobs
        == On(Base(c), p, k, Failed(k, 0), UNUSED).jobs;
    Next(c, Base(c), p, k, job, UNUSED, TakeError(p), Failed(k, 0), UNUSED);
  }

  /** The channel for fragments fills up. */
  lemma {:induction false} ChannelFills(c: Config, p: nat, k: nat, m: nat)
    requires c.Valid() && p < |c.sizes| && k < |c.caps| && c.caps[k] > 0
    requires m <= c.caps[k] && m < c.sizes[p]
    ensures Possible(c, Base(c), p, k, Failed(k, m), UNUSED)
  {
    if m == 0 {
      FirstFetchFails(c, p, k);
    } else {
      ChannelFills(c, p, k, m - 1);
      Fetched(c, Base(c), p, k, Failed(k, m - 1), true);
      var job := Failed(k, m - 1).(enqueued := m + 1);
      FragmentSent(c, Base(c), p, k, job, m);
      assert job.(fragments := job.fragments + [m]) == Failed(k, m);
    }
  }

  /** With two fragments more than workers, an early error can leave a worker waiting for good. */
  lemma StuckPossible(c: Config, p: nat, k: nat) returns (s: State, r: Request)
    requires c.Valid() && p < |c.sizes| && k < |c.caps| && c.caps[k] > 0 && c.sizes[p] >= c.caps[k] + 2
    ensures Reachable(c, s) && |s.nodes| == |c.caps| && r.job == p && Stuck(c, s, k, r)
  {
    var m := c.caps[k];
    ChannelFills(c, p, k, m);
    Fetched(c, Base(c), p, k, Failed(k, m), true);
    r := Request(p, m + 1);
    s := On(Base(c), p, k, Failed(k, m).(enqueued := m + 2), Holding(r, true));
  }

  /** Some run leaves a worker of node k waiting for good, for job p. */
  ghost predicate MayBlock(c: Config, p: nat, k: nat) {
    exists s: State, r: Request :: Reachable(c, s) && |s.nodes| == |c.caps| && r.job == p && Stuck(c, s, k, r)
  }

  /**
   * For every job and node of every system: a worker may come to wait for good
   * if and only if the job has at least two fragments more than the node has
   * workers.
   */
  lemma BlocksIff(c: Config, p: nat, k: nat)
    requires c.Valid() && p < |c.sizes| && k < |c.caps|
    ensures MayBlock(c, p, k) <==> c.caps[k] > 0 && c.sizes[p] >= c.caps[k] + 2
  {
    if MayBlock(c, p, k) {
      var s: State, r: Request :| Reachable(c, s) && |s.nodes| == |c.caps| && r.job == p && Stuck(c, s, k, r);
      StuckNeeds(c, s, k, r);
    }
    if c.caps[k] > 0 && c.sizes[p] >= c.caps[k] + 2 {
      var s, r := StuckPossible(c, p, k);
    }
  }
}
