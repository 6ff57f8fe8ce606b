/**
 * The loops at both ends of a run: Schedule (api/api/scheduler.go) and
 * collectResult (api/api/result.go), one machine at a time. How all machines
 * run together is the subject of Distributed.
 */
module Services {
  import opened Lists
  import opened ArrayTag

  /*
   * The scheduler
   */

  /** An entry of the jobs stream: part number part of ntasks. */
  datatype JobEntry = JobEntry(pid: string, part: nat, ntasks: nat, task: seq<Byte>)

  datatype Scheduled = Complete | HeaderFailed | JobFailed(part: nat)

  /** The entries for the first n tasks. */
  function JobEntries(pid: string, plan: seq<seq<Byte>>, n: nat): (r: seq<JobEntry>)
    requires n <= |plan|
    ensures |r| == n
    ensures forall i :: 0 <= i < n ==>
              r[i].pid == pid && r[i].part == i && r[i].ntasks == |plan| && r[i].task == plan[i]
  {
    seq(n, i requires 0 <= i < n => JobEntry(pid, i, |plan|, plan[i]))
  }

  /** Command number i, from zero on, succeeds; when the replies are used up, every command does. */
  predicate Succeeds(replies: seq<bool>, i: nat) {
    i < |replies| ==> replies[i]
  }

  /** The first n commands succeed. */
  predicate AllSucceed(replies: seq<bool>, n: nat) {
    forall i :: 0 <= i < n ==> Succeeds(replies, i)
  }

  /** What is left after n commands. */
  function After(replies: seq<bool>, n: nat): seq<bool> {
    if n <= |replies| then replies[n..] else []
  }

  lemma NextAfter(replies: seq<bool>, n: nat)
    ensures Succeeds(After(replies, n), 0) <==> Succeeds(replies, n)
    ensures After(After(replies, n), 1) == After(replies, n + 1)
  {}

  /** The storage; the replies say which of the coming commands succeed. */
  class Storage {
    var headers: map<string, seq<Byte>>
    var jobs: seq<JobEntry>
    var replies: seq<bool>

    constructor (replies: seq<bool>)
      ensures headers == map[] && jobs == [] && this.replies == replies
    {
      this.headers, this.jobs, this.replies := map[], [], replies;
    }

    method NextReply() returns (ok: bool)
      modifies `replies
      ensures ok == Succeeds(old(replies), 0) && replies == After(old(replies), 1)
    {
      ok := true;
      if replies != [] {
        ok, replies := replies[0], replies[1..];
      }
    }

    method Set(pid: string, header: seq<Byte>) returns (ok: bool)
      modifies this
      ensures ok == Succeeds(old(replies), 0) && replies == After(old(replies), 1)
      ensures headers == (if ok then old(headers)[pid := header] else old(headers)) && jobs == old(jobs)
    {
      ok := NextReply();
      if ok {
        headers := headers[pid := header];
      }
    }

    method XAdd(entry: JobEntry) returns (ok: bool)
      modifies this
      ensures ok == Succeeds(old(replies), 0) && replies == After(old(replies), 1)
      ensures jobs == (if ok then old(jobs) + [entry] else old(jobs)) && headers == old(headers)
    {
      ok := NextReply();
      if ok {
        jobs := jobs + [entry];
      }
    }

    /**
     * The header is stored before any job is added; the jobs are added in the
     * order of the plan, up to the first command that fails. It is that command
     * that decides the outcome.
     */
    method Schedule(pid: string, header: seq<Byte>, plan: seq<seq<Byte>>) returns (r: Scheduled)
      modifies this
      ensures r.HeaderFailed? <==> !Succeeds(old(replies), 0)
      ensures r.Complete? <==> AllSucceed(old(replies), |plan| + 1)
      ensures r.JobFailed? ==>
                r.part < |plan| && AllSucceed(old(replies), r.part + 1) && !Succeeds(old(replies), r.part + 1)
      ensures r.HeaderFailed? ==> headers == old(headers) && jobs == old(jobs)
      ensures !r.HeaderFailed? ==> headers == old(headers)[pid := header]
      ensures r.JobFailed? ==> jobs == old(jobs) + JobEntries(pid, plan, r.part)
      ensures r.Complete? ==> jobs == old(jobs) + JobEntries(pid, plan, |plan|)
    {
      ghost var all := replies;
      var ok := Set(pid, header);
      if !ok {
        return HeaderFailed;
      }
      for i := 0 to |plan|
        invariant headers == old(headers)[pid := header]
        invariant jobs == old(jobs) + JobEntries(pid, plan, i)
        invariant replies == After(all, i + 1) && AllSucceed(all, i + 1)
      {
        NextAfter(all, i + 1);
        ok := XAdd(JobEntry(pid, i, |plan|, plan[i]));
        if !ok {
          return JobFailed(i);
        }
        assert JobEntries(pid, plan, i + 1) == JobEntries(pid, plan, i) + [JobEntry(pid, i, |plan|, plan[i])];
      }
      return Complete;
    }
  }

  /*
   * The collector
   */

  /** A value of a stream entry, which should be a string of bytes. */
  datatype Value = Chunk(bytes: seq<Byte>) | NotString

  datatype Entry = Entry(id: nat, values: seq<Value>)

  /** What a blocking read returns: the entries after the cursor, or an error. */
  datatype Reply = Entries(entries: seq<Entry>) | ReadError

  datatype Collected = Finished | ReadFailed | BadValue | Waiting

  /** All values of a list of entries. */
  function ValuesOf(entries: seq<Entry>): seq<Value> {
    Flatten(Map((e: Entry) => e.values, entries))
  }

  predicate AllChunks(values: seq<Value>) {
    forall i :: 0 <= i < |values| ==> values[i].Chunk?
  }

  function BytesOf(values: seq<Value>): (r: seq<seq<Byte>>)
    requires AllChunks(values)
    ensures |r| == |values|
  {
    seq(|values|, i requires 0 <= i < |values| => values[i].bytes)
  }

  /** The first value that is not a string. */
  predicate FirstBad(values: seq<Value>, j: nat) {
    j < |values| && AllChunks(values[..j]) && values[j].NotString?
  }

  /** One entry: emit its values until one is not a string. */
  method EmitEntry(e: Entry, tiles: seq<seq<Byte>>, count: nat)
    returns (more: seq<seq<Byte>>, total: nat, ok: bool, ghost bad: nat)
    ensures ok <==> AllChunks(e.values)
    ensures ok ==> more == tiles + BytesOf(e.values) && total == count + |e.values|
    ensures !ok ==> FirstBad(e.values, bad) && more == tiles + BytesOf(e.values[..bad])
  {
    more, total, ok, bad := tiles, count, true, 0;
    for i := 0 to |e.values|
      invariant ok && AllChunks(e.values[..i]) && more == tiles + BytesOf(e.values[..i]) && total == count + i
    {
      if e.values[i].NotString? {
        ok, bad := false, i;
        return;
      }
      more := more + [e.values[i].bytes];
      total := total + 1;
      assert BytesOf(e.values[..i + 1]) == BytesOf(e.values[..i]) + [e.values[i].bytes];
    }
    assert e.values[..|e.values|] == e.values;
  }

  lemma ValuesConcat(a: seq<Entry>, b: seq<Entry>)
    ensures ValuesOf(a + b) == ValuesOf(a) + ValuesOf(b)
  {
    var f := (e: Entry) => e.values;
    MapConcat(f, a, b);
    FlattenConcat(Map(f, a), Map(f, b));
  }

  lemma BytesConcat(a: seq<Value>, b: seq<Value>)
    requires AllChunks(a) && AllChunks(b)
    ensures AllChunks(a + b) && BytesOf(a + b) == BytesOf(a) + BytesOf(b)
  {}

  lemma OneMoreEntry(entries: seq<Entry>, i: nat)
    requires i < |entries| && AllChunks(ValuesOf(entries[..i])) && AllChunks(entries[i].values)
    ensures ValuesOf(entries[..i + 1]) == ValuesOf(entries[..i]) + entries[i].values
    ensures AllChunks(ValuesOf(entries[..i + 1]))
    ensures BytesOf(ValuesOf(entries[..i + 1])) == BytesOf(ValuesOf(entries[..i])) + BytesOf(entries[i].values)
  {
    var f := (e: Entry) => e.values;
    FlattenSnoc(Map(f, entries[..i]), entries[i].values);
    assert Map(f, entries[..i + 1]) == Map(f, entries[..i]) + [entries[i].values];
    BytesConcat(ValuesOf(entries[..i]), entries[i].values);
  }

  /** One reply: emit the values of its entries, and remember the id of the last one. */
  method EmitReply(entries: seq<Entry>, tiles: seq<seq<Byte>>, count: nat, from: nat)
    returns (more: seq<seq<Byte>>, total: nat, cursor: nat, ok: bool, ghost bad: nat)
    ensures ok <==> AllChunks(ValuesOf(entries))
    ensures ok ==> more == tiles + BytesOf(ValuesOf(entries)) && total == count + |ValuesOf(entries)|
    ensures ok ==> cursor == if |entries| == 0 then from else entries[|entries| - 1].id
    ensures !ok ==> FirstBad(ValuesOf(entries), bad) && more == tiles + BytesOf(ValuesOf(entries)[..bad])
  {
    more, total, cursor, ok, bad := tiles, count, from, true, 0;
    for i := 0 to |entries|
      invariant ok && AllChunks(ValuesOf(entries[..i]))
      invariant more == tiles + BytesOf(ValuesOf(entries[..i])) && total == count + |ValuesOf(entries[..i])|
      invariant cursor == if i == 0 then from else entries[i - 1].id
    {
      more, total, ok, bad := EmitEntry(entries[i], more, total);
      if !ok {
        BadEntry(entries, i, bad);
        bad := |ValuesOf(entries[..i])| + bad;
        return;
      }
      OneMoreEntry(entries, i);
      cursor := entries[i].id;
      assert more == tiles + BytesOf(ValuesOf(entries[..i + 1]));
    }
    assert entries[..|entries|] == entries;
  }

  /** The first bad value of an entry is that of the reply, when all entries before it are good. */
  lemma BadEntry(entries: seq<Entry>, i: nat, j: nat)
    requires i < |entries| && AllChunks(ValuesOf(entries[..i])) && FirstBad(entries[i].values, j)
    ensures var bad := |ValuesOf(entries[..i])| + j;
            && FirstBad(ValuesOf(entries), bad) && !AllChunks(ValuesOf(entries))
            && BytesOf(ValuesOf(entries)[..bad]) == BytesOf(ValuesOf(entries[..i])) + BytesOf(entries[i].values[..j])
  {
    var before, values := ValuesOf(entries[..i]), entries[i].values;
    assert entries == entries[..i] + ([entries[i]] + entries[i + 1..]);
    ValuesConcat(entries[..i], [entries[i]] + entries[i + 1..]);
    ValuesConcat([entries[i]], entries[i + 1..]);
    FlattenSingle(values);
    assert Map((e: Entry) => e.values, [entries[i]]) == [values];
    assert ValuesOf(entries) == before + (values + ValuesOf(entries[i + 1..]));
    assert ValuesOf(entries)[..|before| + j] == before + values[..j];
    assert ValuesOf(entries)[|before| + j] == values[j];
    BytesConcat(before, values[..j]);
  }

  /** The entries of the first n replies. */
  function Read(replies: seq<Reply>, n: nat): seq<Entry>
    requires n <= |replies|
  {
    if n == 0 then [] else Read(replies, n - 1) + if replies[n - 1].Entries? then replies[n - 1].entries else []
  }

  /** The id of the last entry, or zero. */
  function LastId(entries: seq<Entry>): nat {
    if |entries| == 0 then 0 else entries[|entries| - 1].id
  }

  /** One more reply adds its values, in their order, and moves the cursor to its last entry. */
  lemma OneMoreReply(replies: seq<Reply>, n: nat)
    requires n < |replies| && AllChunks(ValuesOf(Read(replies, n)))
    requires replies[n].Entries? && AllChunks(ValuesOf(replies[n].entries))
    ensures AllChunks(ValuesOf(Read(replies, n + 1)))
    ensures BytesOf(ValuesOf(Read(replies, n + 1)))
            == BytesOf(ValuesOf(Read(replies, n))) + BytesOf(ValuesOf(replies[n].entries))
    ensures |ValuesOf(Read(replies, n + 1))| == |ValuesOf(Read(replies, n))| + |ValuesOf(replies[n].entries)|
    ensures LastId(Read(replies, n + 1))
            == var e := replies[n].entries; if |e| == 0 then LastId(Read(replies, n)) else e[|e| - 1].id
  {
    ValuesConcat(Read(replies, n), replies[n].entries);
    BytesConcat(ValuesOf(Read(replies, n)), ValuesOf(replies[n].entries));
  }

  /**
   * collectResult, for the replies that its reads get: it emits the header and
   * then every value in the order of the stream, finishes as soon as a whole
   * reply brings the count to ntasks, and keeps the id of the last entry. It
   * stops before that at a read that fails, and at a value that is not a string,
   * after emitting everything before it.
   */
  method CollectResult(header: seq<Byte>, ntasks: int, replies: seq<Reply>)
    returns (tiles: seq<seq<Byte>>, n: nat, cursor: nat, r: Collected, ghost bad: nat)
    ensures n <= |replies| && AllChunks(ValuesOf(Read(replies, n)))
    ensures forall m :: 0 <= m < n ==> |ValuesOf(Read(replies, m))| < ntasks
    ensures r == Finished <==> |ValuesOf(Read(replies, n))| >= ntasks
    ensures r != BadValue ==>
              tiles == [header] + BytesOf(ValuesOf(Read(replies, n))) && cursor == LastId(Read(replies, n))
    ensures r == Waiting ==> n == |replies|
    ensures r == ReadFailed ==> n < |replies| && replies[n].ReadError?
    ensures r == BadValue ==>
              && n < |replies| && replies[n].Entries?
              && FirstBad(ValuesOf(replies[n].entries), bad)
              && tiles == [header] + BytesOf(ValuesOf(Read(replies, n)))
                          + BytesOf(ValuesOf(replies[n].entries)[..bad])
  {
    tiles, n, cursor, bad := [header], 0, 0, 0;
    var count := 0;
    while count < ntasks
      invariant n <= |replies| && AllChunks(ValuesOf(Read(replies, n)))
      invariant tiles == [header] + BytesOf(ValuesOf(Read(replies, n))) && count == |ValuesOf(Read(replies, n))|
      invariant cursor == LastId(Read(replies, n))
      invariant forall m :: 0 <= m < n ==> |ValuesOf(Read(replies, m))| < ntasks
      decreases |replies| - n
    {
      if n == |replies| {
        return tiles, n, cursor, Waiting, bad;
      }
      if replies[n].ReadError? {
        return tiles, n, cursor, ReadFailed, bad;
      }
      var ok;
      tiles, count, cursor, ok, bad := EmitReply(replies[n].entries, tiles, count, cursor);
      if !ok {
        return tiles, n, cursor, BadValue, bad;
      }
      OneMoreReply(replies, n);
      n := n + 1;
    }
    return tiles, n, cursor, Finished, bad;
  }
}
