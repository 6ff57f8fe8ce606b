/**
 * Cutting the jobs of a query in tasks: partition and taskset of the planner
 * (core/src/plan.cpp, core/include/oneseismic/plan.hpp), and the way PlanQuery
 * (api/api/query.go) takes the packed set apart again.
 */
module Partition {
  import opened Arith
  import opened Lists
  import opened Geometry
  import opened ArrayTag

  /** The pieces of n jobs, the last of which may be shorter. */
  function Chunks<Id>(ids: seq<Id>, n: nat): (r: seq<seq<Id>>)
    requires n > 0
    decreases |ids|
  {
    if |ids| == 0 then [] else if |ids| <= n then [ids] else [ids[..n]] + Chunks(ids[n..], n)
  }

  /** Nothing is lost, nothing is reordered, and every task has between 1 and n jobs. */
  lemma {:induction false} ChunksLossless<Id>(ids: seq<Id>, n: nat)
    requires n > 0
    ensures Flatten(Chunks(ids, n)) == ids
    ensures forall k :: 0 <= k < |Chunks(ids, n)| ==> 1 <= |Chunks(ids, n)[k]| <= n
    ensures forall k :: 0 <= k < |Chunks(ids, n)| - 1 ==> |Chunks(ids, n)[k]| == n
    decreases |ids|
  {
    if 0 < |ids| <= n {
      FlattenSingle(ids);
    } else if n < |ids| {
      ChunksLossless(ids[n..], n);
      FlattenCons(ids[..n], Chunks(ids[n..], n));
      var rest := Chunks(ids[n..], n);
      assert |rest| > 0;
      forall k | 0 <= k < |Chunks(ids, n)|
        ensures 1 <= |Chunks(ids, n)[k]| <= n
        ensures k < |Chunks(ids, n)| - 1 ==> |Chunks(ids, n)[k]| == n
      {
        if k > 0 {
          assert Chunks(ids, n)[k] == rest[k - 1];
        }
      }
    }
  }

  /** The number of tasks is the number of jobs divided by the task size, rounded up. */
  lemma {:induction false} ChunksCount<Id>(ids: seq<Id>, n: nat)
    requires n > 0
    ensures |Chunks(ids, n)| == Count(|ids|, n)
    decreases |ids|
  {
    CountIs(|ids|, n);
    if |ids| == 0 {
      DivModUnique(0, n, 0, 0);
    } else if |ids| < n {
      DivModUnique(|ids|, n, 0, |ids|);
    } else if |ids| == n {
      DivModUnique(n, n, 1, 0);
    } else {
      ChunksCount(ids[n..], n);
      CountIs(|ids| - n, n);
      DivMod(|ids| - n, n);
      var q, r := (|ids| - n) / n, (|ids| - n) % n;
      MulDistrib(q, 1, n);
      DivModUnique(|ids|, n, q + 1, r);
    }
  }

  /** The division of C++ rounds towards zero. */
  function Quotient(a: int, b: int): int
    requires b > 0
  {
    if a >= 0 then a / b else -((-a) / b)
  }

  datatype Counted = Tasks(n: nat) | CountError

  /** task_count: the sum is an int, and a quotient that is not positive is an error. */
  function TaskCount(jobs: nat, taskSize: nat): Counted
    requires taskSize > 0
  {
    var x := Quotient(ToInt(jobs + (taskSize - 1)), taskSize);
    if x <= 0 then CountError else Tasks(x)
  }

  /** There are tasks to count unless there is no job at all, or the sum leaves the range of an int. */
  lemma TaskCountIs(jobs: nat, taskSize: nat)
    requires 0 < taskSize <= INT_MAX && jobs <= INT_MAX
    ensures TaskCount(jobs, taskSize) ==
            if jobs == 0 || jobs + (taskSize - 1) > INT_MAX then CountError else Tasks(Count(jobs, taskSize))
  {
    var sum := jobs + (taskSize - 1);
    if sum > INT_MAX {
      DivModUnique(sum, INT_RANGE, 0, sum);
      assert ToInt(sum) == sum - INT_RANGE < 0;
      DivMod(-(sum - INT_RANGE), taskSize);
    } else if jobs == 0 {
      DivModUnique(sum, taskSize, 0, sum);
    } else {
      DivLower(sum, taskSize, 1);
    }
  }

  /** The planner's set of packed tasks: their sizes, and their bytes back to back. */
  class TaskSet {
    var sizes: seq<nat>
    var packed: seq<Byte>
    ghost var blobs: seq<seq<Byte>>

    ghost predicate Valid()
      reads this
    {
      Packs(sizes, packed, blobs)
    }

    constructor ()
      ensures Valid() && blobs == []
    {
      sizes, packed, blobs := [], [], [];
    }

    method Append(task: seq<Byte>)
      requires Valid()
      modifies this
      ensures Valid() && blobs == old(blobs) + [task]
      ensures sizes == old(sizes) + [|task|] && packed == old(packed) + task
    {
      FlattenSnoc(blobs, task);
      sizes := sizes + [|task|];
      packed := packed + task;
      blobs := blobs + [task];
    }

    function Count(): nat
      reads this
    {
      |sizes|
    }
  }

  /** The sizes and bytes are those of the blobs. */
  ghost predicate Packs(sizes: seq<nat>, packed: seq<Byte>, blobs: seq<seq<Byte>>) {
    && packed == Flatten(blobs) && |sizes| == |blobs|
    && forall i :: 0 <= i < |blobs| ==> sizes[i] == |blobs[i]|
  }

  /** What the plan of a query is made of. */
  datatype QueryPlan = QueryPlan(header: seq<Byte>, plan: seq<seq<Byte>>)

  lemma FlattenPrefixLength(blobs: seq<seq<Byte>>, i: nat)
    requires i < |blobs|
    ensures |Flatten(blobs[..i])| + |blobs[i]| <= |Flatten(blobs)|
    ensures Flatten(blobs)[|Flatten(blobs[..i])|..|Flatten(blobs[..i])| + |blobs[i]|] == blobs[i]
    ensures Flatten(blobs[..i + 1]) == Flatten(blobs[..i]) + blobs[i]
  {
    var a, b := blobs[..i], blobs[i + 1..];
    assert blobs == a + [blobs[i]] + b && blobs[..i + 1] == a + [blobs[i]];
    FlattenAround(a, blobs[i], b);
    FlattenSnoc(a, blobs[i]);
  }

  /** PlanQuery: walk the bytes with the sizes; the last blob is the header. */
  method SplitPlan(sizes: seq<nat>, packed: seq<Byte>, ghost blobs: seq<seq<Byte>>) returns (p: QueryPlan)
    requires Packs(sizes, packed, blobs) && |sizes| > 0
    ensures p == QueryPlan(blobs[|blobs| - 1], blobs[..|blobs| - 1])
  {
    var result: seq<seq<Byte>> := [];
    var at := 0;
    for i := 0 to |sizes|
      invariant result == blobs[..i]
      invariant at == |Flatten(blobs[..i])|
    {
      FlattenPrefixLength(blobs, i);
      result := result + [packed[at..at + sizes[i]]];
      at := at + sizes[i];
    }
    var headerIndex := |result| - 1;
    p := QueryPlan(result[headerIndex], result[..headerIndex]);
  }

  datatype Partitioned = Planned(tasks: TaskSet) | BadTaskSize | Terminated

  predicate Countable(jobs: nat, taskSize: nat) {
    0 < jobs && jobs + (taskSize - 1) <= INT_MAX
  }

  lemma {:induction false} ChunkAt<Id>(ids: seq<Id>, n: nat, i: nat)
    requires n > 0 && i < |Chunks(ids, n)|
    ensures 0 <= i * n < |ids|
    ensures Chunks(ids, n)[i] == ids[i * n..Min(i * n + n, |ids|)]
    ensures if i + 1 < |Chunks(ids, n)| then i * n + n == (i + 1) * n < |ids| else |ids| <= i * n + n
    decreases |ids|
  {
    MulDistrib(i, 1, n);
    if |ids| > n {
      if i > 0 {
        ChunkAt(ids[n..], n, i - 1);
        MulDistrib(i - 1, 1, n);
        var lo, hi := (i - 1) * n, Min((i - 1) * n + n, |ids| - n);
        assert ids[n..][lo..hi] == ids[n + lo..n + hi];
      } else {
        assert ids[..n] == ids[0..n];
      }
    } else {
      assert ids == ids[0..|ids|];
    }
  }

  /** count_tasks is noexcept, so an output that cannot be counted ends the program. */
  method CountTasks<Output, Id>(outputs: seq<Output>, idsOf: Output -> seq<Id>, taskSize: nat) returns (n: Counted)
    requires 0 < taskSize <= INT_MAX && forall i :: 0 <= i < |outputs| ==> |idsOf(outputs[i])| <= INT_MAX
    ensures n.CountError? <==> exists i :: 0 <= i < |outputs| && !Countable(|idsOf(outputs[i])|, taskSize)
    ensures n.Tasks? ==> n.n == TotalTasks(outputs, idsOf, taskSize, |outputs|)
  {
    var total := 0;
    for i := 0 to |outputs|
      invariant forall k :: 0 <= k < i ==> Countable(|idsOf(outputs[k])|, taskSize)
      invariant total == TotalTasks(outputs, idsOf, taskSize, i)
    {
      TaskCountIs(|idsOf(outputs[i])|, taskSize);
      var c := TaskCount(|idsOf(outputs[i])|, taskSize);
      if c.CountError? {
        return CountError;
      }
      total := total + c.n;
    }
    return Tasks(total);
  }

  /** The sum over the first n outputs of their jobs divided by the task size, rounded up. */
  function TotalTasks<Output, Id>(outputs: seq<Output>, idsOf: Output -> seq<Id>, taskSize: nat, n: nat): nat
    requires 0 < taskSize && n <= |outputs|
  {
    if n == 0 then 0 else
      TotalTasks(outputs, idsOf, taskSize, n - 1) + Geometry.Count(|idsOf(outputs[n - 1])|, taskSize)
  }

  /** One output for every chunk of ids, with everything else repeated. */
  function Pieces<Output, Id>(output: Output, assign: (Output, seq<Id>) -> Output, chunks: seq<seq<Id>>)
    : (r: seq<Output>)
    ensures |r| == |chunks|
  {
    seq(|chunks|, k requires 0 <= k < |chunks| => assign(output, chunks[k]))
  }

  /** The tasks of the first n outputs. */
  function AllPieces<Output, Id>(
    outputs: seq<Output>, idsOf: Output -> seq<Id>, assign: (Output, seq<Id>) -> Output, taskSize: nat, n: nat)
    : seq<Output>
    requires taskSize > 0 && n <= |outputs|
  {
    if n == 0 then [] else
      AllPieces(outputs, idsOf, assign, taskSize, n - 1)
      + Pieces(outputs[n - 1], assign, Chunks(idsOf(outputs[n - 1]), taskSize))
  }

  /** There are as many tasks as count_tasks counts. */
  lemma {:induction false} PieceCount<Output, Id>(
    outputs: seq<Output>, idsOf: Output -> seq<Id>, assign: (Output, seq<Id>) -> Output, taskSize: nat, n: nat)
    requires taskSize > 0 && n <= |outputs|
    ensures |AllPieces(outputs, idsOf, assign, taskSize, n)| == TotalTasks(outputs, idsOf, taskSize, n)
  {
    if n > 0 {
      PieceCount(outputs, idsOf, assign, taskSize, n - 1);
      ChunksCount(idsOf(outputs[n - 1]), taskSize);
    }
  }

  /** The inner loop of partition: one output, whose ids are replaced by one chunk after the other. */
  method PartitionOutput<Output, Id>(
    tasks: TaskSet, output: Output, idsOf: Output -> seq<Id>, assign: (Output, seq<Id>) -> Output,
    pack: Output -> seq<Byte>, taskSize: nat)
    requires tasks.Valid() && 0 < taskSize && Countable(|idsOf(output)|, taskSize)
    modifies tasks
    ensures tasks.Valid()
    ensures tasks.blobs == old(tasks.blobs) + Map(pack, Pieces(output, assign, Chunks(idsOf(output), taskSize)))
  {
    var ids := idsOf(output);
    TaskCountIs(|ids|, taskSize);
    ChunksCount(ids, taskSize);
    var ntasks := TaskCount(|ids|, taskSize).n;
    var fst := 0;
    ghost var all := Map(pack, Pieces(output, assign, Chunks(ids, taskSize)));
    for i := 0 to ntasks
      invariant tasks.Valid()
      invariant i < ntasks ==> fst == i * taskSize
      invariant tasks.blobs == old(tasks.blobs) + all[..i]
    {
      ChunkAt(ids, taskSize, i);
      var last := Min(fst + taskSize, |ids|);
      tasks.Append(pack(assign(output, ids[fst..last])));
      fst := last;
    }
  }

  method Partition<Output, Id>(
    outputs: seq<Output>, idsOf: Output -> seq<Id>, assign: (Output, seq<Id>) -> Output,
    pack: Output -> seq<Byte>, taskSize: int)
    returns (r: Partitioned)
    requires taskSize <= INT_MAX && forall i :: 0 <= i < |outputs| ==> |idsOf(outputs[i])| <= INT_MAX
    ensures r.BadTaskSize? <==> taskSize < 1
    ensures taskSize >= 1 ==>
              (r.Terminated? <==> exists i :: 0 <= i < |outputs| && !Countable(|idsOf(outputs[i])|, taskSize))
    ensures r.Planned? ==> fresh(r.tasks) && r.tasks.Valid()
    ensures r.Planned? ==> r.tasks.blobs == Map(pack, AllPieces(outputs, idsOf, assign, taskSize, |outputs|))
  {
    if taskSize < 1 {
      return BadTaskSize;
    }
    var reserved := CountTasks(outputs, idsOf, taskSize);
    if reserved.CountError? {
      return Terminated;
    }
    var partitioned := new TaskSet();
    for i := 0 to |outputs|
      invariant partitioned.Valid() && fresh(partitioned)
      invariant partitioned.blobs == Map(pack, AllPieces(outputs, idsOf, assign, taskSize, i))
    {
      PartitionOutput(partitioned, outputs[i], idsOf, assign, pack, taskSize);
    }
    return Planned(partitioned);
  }
}
