/**
 * A survey, as it is read for an upload: traces with a pair of line numbers, in
 * any order; the line sets of the scan (python/oneseismic/scan/scanners.py);
 * and the cube the traces make up.
 */
module Survey {
  import opened Arith
  import opened Lists
  import opened Geometry
  import opened Cells
  import opened Messages
  import Queries

  /** The word of a trace header that holds a line number. */
  type LineNo = x: int | -INT_MAX - 1 <= x <= INT_MAX

  /** A trace, with the values that are extracted from it. */
  datatype Trace = Trace(key1: LineNo, key2: LineNo, values: seq<Sample>)

  function Keys1(traces: seq<Trace>): (r: seq<int>)
    ensures |r| == |traces|
  {
    seq(|traces|, m requires 0 <= m < |traces| => traces[m].key1)
  }

  function Keys2(traces: seq<Trace>): (r: seq<int>)
    ensures |r| == |traces|
  {
    seq(|traces|, m requires 0 <= m < |traces| => traces[m].key2)
  }

  /** The lines are those of the traces, in increasing order. */
  ghost predicate LinesAre(traces: seq<Trace>, lines1: seq<int>, lines2: seq<int>) {
    && Queries.Sorted(lines1) && (forall k :: k in lines1 <==> k in Keys1(traces))
    && Queries.Sorted(lines2) && (forall k :: k in lines2 <==> k in Keys2(traces))
  }

  /*
   * The line scanner
   */

  /** The last trace with the line number, among the first n. */
  function LastTrace(keys: seq<int>, n: nat, key: int): Option<nat>
    requires n <= |keys|
  {
    if n == 0 then None else if keys[n - 1] == key then Some(n - 1) else LastTrace(keys, n - 1, key)
  }

  /** What a scan reports; key1-last-trace is `last`. */
  datatype LineReport = LineReport(
    lines1: seq<LineNo>, lines2: seq<LineNo>, depths: seq<int>, last: map<LineNo, nat>)

  /** The depths of the samples of a trace. */
  function Depths(samples: nat, interval: int): (r: seq<int>)
    ensures |r| == samples
  {
    seq(samples, i => i * interval)
  }

  /** From zero on, in equal steps. */
  ghost predicate Stepped(xs: seq<int>, step: int) {
    (|xs| > 0 ==> xs[0] == 0) && forall i, j :: 0 <= i && j == i + 1 && j < |xs| ==> xs[j] - xs[i] == step
  }

  lemma DepthsStepped(samples: nat, interval: int)
    ensures Stepped(Depths(samples, interval), interval)
  {
    forall i, j | 0 <= i && j == i + 1 && j < samples
      ensures Depths(samples, interval)[j] - Depths(samples, interval)[i] == interval
    {
      MulDistrib(i, 1, interval);
    }
  }

  /** Before the end, x is on the side of it that the step comes from. */
  lemma BeforeStop(i: nat, n: nat, step: int)
    requires i <= n
    ensures i * step + step == (i + 1) * step
    ensures step > 0 ==> (i * step < n * step <==> i < n)
    ensures step < 0 ==> (i * step > n * step <==> i < n)
  {
    MulDistrib(i, 1, step);
    if i < n {
      if step > 0 {
        MulMono(i + 1, n, step);
      } else {
        MulMono(i + 1, n, -step);
        MulDistrib(i, 1, -step);
      }
    }
  }

  /** numpy's arange(0, samples * step, step), for a step of either sign; it raises for a step of zero. */
  method Arange(samples: nat, step: int) returns (r: Option<seq<int>>)
    ensures r == if step == 0 then None else Some(Depths(samples, step))
    ensures r.Some? ==> |r.value| == samples && Stepped(r.value, step)
  {
    DepthsStepped(samples, step);
    if step == 0 {
      return None;
    }
    var stop := samples * step;
    var xs, x := [], 0;
    BeforeStop(0, samples, step);
    while if step > 0 then x < stop else x > stop
      invariant |xs| <= samples && xs == Depths(|xs|, step) && x == |xs| * step
      decreases samples - |xs|
    {
      BeforeStop(|xs|, samples, step);
      xs, x := xs + [x], x + step;
    }
    BeforeStop(|xs|, samples, step);
    return Some(xs);
  }

  class LineScanner {
    var key1s: set<LineNo>
    var key2s: set<LineNo>
    var last1s: map<LineNo, nat>
    var traceno: nat
    var samples: Option<nat>
    var interval: Option<int>
    ghost var seen1: seq<int>
    ghost var seen2: seq<int>

    ghost predicate Valid()
      reads this
    {
      && traceno == |seen1| == |seen2| && (samples.Some? <==> interval.Some?)
      && (forall k :: k in key1s <==> k in seen1) && (forall k :: k in key2s <==> k in seen2)
      && last1s.Keys == key1s && (forall k :: k in last1s ==> LastTrace(seen1, |seen1|, k) == Some(last1s[k]))
    }

    constructor ()
      ensures Valid() && seen1 == [] && seen2 == [] && samples == None
    {
      key1s, key2s, last1s, traceno, seen1, seen2 := {}, {}, map[], 0, [], [];
      samples, interval := None, None;
    }

    /** The words of the binary header for the number of samples and their interval. */
    method ScanBinaryHeader(hns: nat, hdt: int)
      requires Valid()
      modifies `samples, `interval
      ensures Valid() && samples == Some(hns) && interval == Some(hdt)
    {
      samples, interval := Some(hns), Some(hdt);
    }

    method ScanTraceHeader(key1: LineNo, key2: LineNo)
      requires Valid()
      modifies this
      ensures Valid() && seen1 == old(seen1) + [key1] && seen2 == old(seen2) + [key2]
      ensures samples == old(samples) && interval == old(interval)
    {
      forall k | k in last1s
        ensures LastTrace(seen1 + [key1], |seen1|, k) == LastTrace(seen1, |seen1|, k)
      {
        LastTracePrefix(seen1, key1, |seen1|, k);
      }
      key1s := key1s + {key1};
      key2s := key2s + {key2};
      last1s := last1s[key1 := traceno];
      traceno := traceno + 1;
      seen1, seen2 := seen1 + [key1], seen2 + [key2];
    }

    /**
     * The sorted lines, the depths, and the last trace of every line; it raises
     * when no binary header was scanned, and when the interval in it is zero.
     */
    method Report() returns (r: Option<LineReport>)
      requires Valid()
      ensures r.Some? <==> samples.Some? && interval.value != 0
      ensures r.Some? ==> IsReport(r.value, seen1, seen2) && r.value.depths == Depths(samples.value, interval.value)
      ensures r.Some? ==> |r.value.depths| == samples.value && Stepped(r.value.depths, interval.value)
    {
      if samples.None? {
        return None;
      }
      var depths := Arange(samples.value, interval.value);
      if depths.None? {
        return None;
      }
      var lines1 := SortedList(key1s);
      var lines2 := SortedList(key2s);
      return Some(LineReport(lines1, lines2, depths.value, last1s));
    }
  }

  /** The report lists the lines that were seen, once each and in order, and the last trace of each inline. */
  ghost predicate IsReport(report: LineReport, seen1: seq<int>, seen2: seq<int>) {
    && Queries.Sorted(report.lines1) && (forall k :: k in report.lines1 <==> k in seen1)
    && Queries.Sorted(report.lines2) && (forall k :: k in report.lines2 <==> k in seen2)
    && (forall k :: k in report.last <==> k in seen1)
    && (forall k :: k in report.last ==> LastTrace(seen1, |seen1|, k) == Some(report.last[k]))
  }

  lemma {:induction false} LastTracePrefix(keys: seq<int>, more: int, n: nat, key: int)
    requires n <= |keys|
    ensures LastTrace(keys + [more], n, key) == LastTrace(keys, n, key)
  {
    if n > 0 {
      LastTracePrefix(keys, more, n - 1, key);
    }
  }

  /** What the last trace of a line is. */
  lemma {:induction false} LastTraceIs(keys: seq<int>, n: nat, key: int)
    requires n <= |keys|
    ensures LastTrace(keys, n, key).Some? <==> key in keys[..n]
    ensures LastTrace(keys, n, key).Some? ==>
              && LastTrace(keys, n, key).value < n && keys[LastTrace(keys, n, key).value] == key
              && forall m :: LastTrace(keys, n, key).value < m < n ==> keys[m] != key
  {
    if n > 0 {
      LastTraceIs(keys, n - 1, key);
      assert keys[..n] == keys[..n - 1] + [keys[n - 1]];
    }
  }

  method InsertSorted(s: seq<LineNo>, x: LineNo) returns (r: seq<LineNo>)
    requires Queries.Sorted(s) && x !in s
    ensures Queries.Sorted(r) && forall k :: k in r <==> k in s || k == x
  {
    var k := Queries.LowerBound(s, x);
    r := s[..k] + [x] + s[k..];
    Inserted(s, x, k);
  }

  lemma Inserted(s: seq<LineNo>, x: LineNo, k: nat)
    requires Queries.Sorted(s) && x !in s && k <= |s|
    requires (forall i :: 0 <= i < k ==> s[i] < x) && (forall i :: k <= i < |s| ==> x <= s[i])
    ensures Queries.Sorted(s[..k] + [x] + s[k..])
    ensures forall y :: y in s[..k] + [x] + s[k..] <==> y in s || y == x
  {
    var r := s[..k] + [x] + s[k..];
    forall i | k <= i < |s|
      ensures x < s[i]
    {
      assert s[i] in s;
    }
    forall i | 0 <= i < |r|
      ensures r[i] == if i < k then s[i] else if i == k then x else s[i - 1]
    {}
    forall y
      ensures y in r <==> y in s || y == x
    {
      assert s == s[..k] + s[k..];
    }
  }

  /** sorted() of a set. */
  method SortedList(s: set<LineNo>) returns (r: seq<LineNo>)
    ensures Queries.Sorted(r) && forall k :: k in r <==> k in s
  {
    r := [];
    var todo := s;
    while todo != {}
      invariant todo <= s && Queries.Sorted(r)
      invariant forall k :: k in r <==> k in s && k !in todo
      decreases |todo|
    {
      var x: LineNo :| x in todo;
      r := InsertSorted(r, x);
      todo := todo - {x};
    }
  }

  lemma SortedTail(a: seq<int>)
    requires Queries.Sorted(a) && |a| > 0
    ensures forall k :: k in a[1..] <==> k in a && k != a[0]
  {
    assert a == [a[0]] + a[1..];
  }

  /** Sorted lists of the same lines are the same. */
  lemma {:induction false} SortedUnique(a: seq<int>, b: seq<int>)
    requires Queries.Sorted(a) && Queries.Sorted(b) && forall k :: k in a <==> k in b
    ensures a == b
  {
    assert |a| == 0 || a[0] in a;
    assert |b| == 0 || b[0] in b;
    assert (|a| == 0 || a[0] in b) && (|b| == 0 || b[0] in a);
    if |a| > 0 {
      SortedTail(a);
      SortedTail(b);
      SortedUnique(a[1..], b[1..]);
      assert a == [a[0]] + a[1..] && b == [b[0]] + b[1..];
    }
  }

  /*
   * The cube that a list of traces makes up
   */

  /** The last of the first n traces with the pair of lines. */
  function Latest(traces: seq<Trace>, n: nat, key1: int, key2: int): Option<Trace>
    requires n <= |traces|
  {
    if n == 0 then None
    else if traces[n - 1].key1 == key1 && traces[n - 1].key2 == key2 then Some(traces[n - 1])
    else Latest(traces, n - 1, key1, key2)
  }

  /** The samples of the first n traces, by the positions of their lines; zero where there is no trace. */
  function SurveyCube(traces: seq<Trace>, n: nat, lines1: seq<int>, lines2: seq<int>): Cube
    requires n <= |traces|
  {
    p =>
      if n <= |traces| && |p| == 3 && p[0] < |lines1| && p[1] < |lines2| then
        var t := Latest(traces, n, lines1[p[0]], lines2[p[1]]);
        if t.Some? && p[2] < |t.value.values| then t.value.values[p[2]] else 0
      else 0
  }

  predicate DistinctPairs(traces: seq<Trace>) {
    forall i, j :: 0 <= i < j < |traces| ==> (traces[i].key1, traces[i].key2) != (traces[j].key1, traces[j].key2)
  }

  /** With distinct pairs of lines, it does not matter which trace comes last. */
  lemma {:induction false} LatestIs(traces: seq<Trace>, n: nat, key1: int, key2: int)
    requires n <= |traces|
    ensures Latest(traces, n, key1, key2).Some? ==>
              && Latest(traces, n, key1, key2).value in traces[..n]
              && Latest(traces, n, key1, key2).value.key1 == key1 && Latest(traces, n, key1, key2).value.key2 == key2
    ensures Latest(traces, n, key1, key2).None? ==>
              forall m :: 0 <= m < n ==> traces[m].key1 != key1 || traces[m].key2 != key2
  {
    if n > 0 {
      LatestIs(traces, n - 1, key1, key2);
      assert traces[..n] == traces[..n - 1] + [traces[n - 1]];
    }
  }

  /** No later trace has the pair of lines. */
  lemma {:induction false} LatestIsLast(traces: seq<Trace>, n: nat, key1: int, key2: int) returns (m: nat)
    requires n <= |traces| && Latest(traces, n, key1, key2).Some?
    ensures m < n && Latest(traces, n, key1, key2) == Some(traces[m])
    ensures traces[m].key1 == key1 && traces[m].key2 == key2
    ensures forall l :: m < l < n ==> traces[l].key1 != key1 || traces[l].key2 != key2
  {
    if traces[n - 1].key1 == key1 && traces[n - 1].key2 == key2 {
      m := n - 1;
    } else {
      m := LatestIsLast(traces, n - 1, key1, key2);
    }
  }

  lemma LatestPermuted(a: seq<Trace>, b: seq<Trace>, key1: int, key2: int)
    requires Permutation(a, b) && DistinctPairs(a) && DistinctPairs(b)
    ensures Latest(a, |a|, key1, key2) == Latest(b, |b|, key1, key2)
  {
    LatestIs(a, |a|, key1, key2);
    LatestIs(b, |b|, key1, key2);
    assert a[..|a|] == a && b[..|b|] == b;
    var t, u := Latest(a, |a|, key1, key2), Latest(b, |b|, key1, key2);
    assert t.Some? ==> t.value in multiset(a);
    assert u.Some? ==> u.value in multiset(b);
    assert u.Some? ==> u.value in a;
    if t.Some? {
      assert t.value in b;
      var i :| 0 <= i < |b| && b[i] == t.value;
      if u.Some? {
        var j :| 0 <= j < |b| && b[j] == u.value;
        assert i == j;
      }
    }
  }
}
