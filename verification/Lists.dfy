/** Sequences of sequences, and what does not depend on the order of a sequence. */
module Lists {

  function Flatten<T>(s: seq<seq<T>>): seq<T> {
    FlattenTo(s, |s|)
  }

  /** The first n sequences, put together. */
  function FlattenTo<T>(s: seq<seq<T>>, n: nat): seq<T>
    requires n <= |s|
  {
    if n == 0 then [] else FlattenTo(s, n - 1) + s[n - 1]
  }

  function Map<T, U>(f: T -> U, s: seq<T>): (r: seq<U>)
    ensures |r| == |s|
  {
    seq(|s|, i requires 0 <= i < |s| => f(s[i]))
  }

  /** The two sequences list the same elements, equally often. */
  predicate Permutation<T(==)>(a: seq<T>, b: seq<T>) {
    multiset(a) == multiset(b)
  }

  lemma {:induction false} FlattenPrefix<T>(a: seq<seq<T>>, b: seq<seq<T>>, n: nat)
    requires n <= |a| && n <= |b| && a[..n] == b[..n]
    ensures FlattenTo(a, n) == FlattenTo(b, n)
  {
    if n > 0 {
      assert a[n - 1] == a[..n][n - 1] && b[n - 1] == b[..n][n - 1];
      assert a[..n - 1] == a[..n][..n - 1] && b[..n - 1] == b[..n][..n - 1];
      FlattenPrefix(a, b, n - 1);
    }
  }

  lemma FlattenSnoc<T>(s: seq<seq<T>>, x: seq<T>)
    ensures Flatten(s + [x]) == Flatten(s) + x
  {
    FlattenPrefix(s + [x], s, |s|);
  }

  lemma {:induction false} FlattenConcatTo<T>(a: seq<seq<T>>, b: seq<seq<T>>, n: nat)
    requires n <= |b|
    ensures FlattenTo(a + b, |a| + n) == Flatten(a) + FlattenTo(b, n)
  {
    if n == 0 {
      FlattenPrefix(a + b, a, |a|);
    } else {
      FlattenConcatTo(a, b, n - 1);
      assert (a + b)[|a| + n - 1] == b[n - 1];
    }
  }

  lemma FlattenConcat<T>(a: seq<seq<T>>, b: seq<seq<T>>)
    ensures Flatten(a + b) == Flatten(a) + Flatten(b)
  {
    FlattenConcatTo(a, b, |b|);
  }

  lemma FlattenSingle<T>(x: seq<T>)
    ensures Flatten([x]) == x
  {
    assert FlattenTo([x], 0) == [];
  }

  lemma FlattenCons<T>(x: seq<T>, s: seq<seq<T>>)
    ensures Flatten([x] + s) == x + Flatten(s)
  {
    FlattenConcat([x], s);
    FlattenSingle(x);
  }

  lemma FlattenThree<T>(a: seq<T>, b: seq<T>, c: seq<T>)
    ensures Flatten([a, b, c]) == a + b + c
  {
    var s := [a, b, c];
    assert FlattenTo(s, 1) == FlattenTo(s, 0) + a;
    assert FlattenTo(s, 2) == FlattenTo(s, 1) + b;
  }

  lemma {:induction false} FlattenMemberTo<T>(s: seq<seq<T>>, n: nat, x: T)
    requires n <= |s|
    ensures x in FlattenTo(s, n) <==> exists i :: 0 <= i < n && x in s[i]
  {
    if n > 0 {
      FlattenMemberTo(s, n - 1, x);
    }
  }

  lemma FlattenMember<T>(s: seq<seq<T>>, x: T)
    ensures x in Flatten(s) <==> exists i :: 0 <= i < |s| && x in s[i]
  {
    FlattenMemberTo(s, |s|, x);
  }

  /** Cut a sequence at one of its elements. */
  lemma MultisetCut<T>(s: seq<T>, i: nat)
    requires i < |s|
    ensures multiset(s) == multiset(s[..i] + s[i + 1..]) + multiset{s[i]}
  {
    assert s == s[..i] + [s[i]] + s[i + 1..];
  }

  lemma MultisetSnoc<T>(s: seq<T>)
    requires |s| > 0
    ensures multiset(s) == multiset(s[..|s| - 1]) + multiset{s[|s| - 1]}
  {
    assert s == s[..|s| - 1] + [s[|s| - 1]];
  }

  /** Find the last element of a in its permutation b, and take it out of both. */
  lemma PermutationCut<T>(a: seq<T>, b: seq<T>) returns (i: nat)
    requires Permutation(a, b) && |a| > 0
    ensures i < |b| && b[i] == a[|a| - 1]
    ensures Permutation(a[..|a| - 1], b[..i] + b[i + 1..])
  {
    var x := a[|a| - 1];
    MultisetSnoc(a);
    assert x in multiset(b);
    i :| 0 <= i < |b| && b[i] == x;
    MultisetCut(b, i);
    assert multiset(a[..|a| - 1]) == multiset(a) - multiset{x};
    assert multiset(b[..i] + b[i + 1..]) == multiset(b) - multiset{x};
  }

  lemma PermutationEmpty<T>(a: seq<T>, b: seq<T>)
    requires Permutation(a, b) && |a| == 0
    ensures |b| == 0
  {
    assert |multiset(a)| == |a| && |multiset(b)| == |b|;
  }

  lemma PermutationLength<T>(a: seq<T>, b: seq<T>)
    requires Permutation(a, b)
    ensures |a| == |b|
  {
    assert |multiset(a)| == |a| && |multiset(b)| == |b|;
  }

  lemma MultisetMiddle<T>(a: seq<T>, x: seq<T>, b: seq<T>)
    ensures multiset(a + x + b) == multiset(a + b) + multiset(x)
  {}

  lemma FlattenAround<T>(a: seq<seq<T>>, x: seq<T>, b: seq<seq<T>>)
    ensures Flatten(a + [x] + b) == Flatten(a) + x + Flatten(b)
  {
    FlattenSnoc(a, x);
    FlattenConcat(a + [x], b);
  }

  lemma FlattenCut<T>(s: seq<seq<T>>, i: nat)
    requires i < |s|
    ensures multiset(Flatten(s)) == multiset(Flatten(s[..i] + s[i + 1..])) + multiset(s[i])
  {
    var a, b := s[..i], s[i + 1..];
    assert s == a + [s[i]] + b;
    FlattenAround(a, s[i], b);
    FlattenConcat(a, b);
    MultisetMiddle(Flatten(a), s[i], Flatten(b));
  }

  lemma FlattenBetween<T>(s: seq<seq<T>>, i: nat)
    requires i <= |s|
    ensures Flatten(s[..i]) + Flatten(s[i..]) == Flatten(s)
  {
    var a, b := s[..i], s[i..];
    FlattenConcat(a, b);
    assert s == a + b;
  }

  lemma {:induction false} FlattenPermutation<T>(a: seq<seq<T>>, b: seq<seq<T>>)
    requires Permutation(a, b)
    ensures Permutation(Flatten(a), Flatten(b))
    decreases |a|
  {
    if |a| == 0 {
      PermutationEmpty(a, b);
    } else {
      var i := PermutationCut(a, b);
      FlattenPermutation(a[..|a| - 1], b[..i] + b[i + 1..]);
      FlattenCut(b, i);
      FlattenCut(a, |a| - 1);
      assert a[..|a| - 1] + a[|a| - 1 + 1..] == a[..|a| - 1];
    }
  }

  lemma {:induction false} MapPermutation<T, U>(f: T -> U, a: seq<T>, b: seq<T>)
    requires Permutation(a, b)
    ensures Permutation(Map(f, a), Map(f, b))
    decreases |a|
  {
    if |a| == 0 {
      PermutationEmpty(a, b);
    } else {
      var n := |a| - 1;
      var i := PermutationCut(a, b);
      MapPermutation(f, a[..n], b[..i] + b[i + 1..]);
      MultisetCut(Map(f, b), i);
      MultisetSnoc(Map(f, a));
      assert Map(f, a)[..n] == Map(f, a[..n]);
      assert Map(f, b)[..i] + Map(f, b)[i + 1..] == Map(f, b[..i] + b[i + 1..]);
    }
  }

  /** Without repetitions, being listed is being listed once. */
  lemma {:induction false} DistinctMultiset<T>(s: seq<T>)
    requires forall i, j :: 0 <= i < j < |s| ==> s[i] != s[j]
    ensures forall x :: multiset(s)[x] == if x in s then 1 else 0
  {
    if |s| > 0 {
      var n := |s| - 1;
      MultisetSnoc(s);
      DistinctMultiset(s[..n]);
      forall x
        ensures multiset(s)[x] == if x in s then 1 else 0
      {
        assert x in s <==> x in s[..n] || x == s[n];
        assert s[n] !in s[..n];
      }
    }
  }

  /** Two sequences without repetitions that list the same elements are permutations of each other. */
  lemma SameElements<T>(a: seq<T>, b: seq<T>)
    requires forall i, j :: 0 <= i < j < |a| ==> a[i] != a[j]
    requires forall i, j :: 0 <= i < j < |b| ==> b[i] != b[j]
    requires forall x :: x in a <==> x in b
    ensures Permutation(a, b)
  {
    DistinctMultiset(a);
    DistinctMultiset(b);
    forall x
      ensures multiset(a)[x] == multiset(b)[x]
    {}
  }

  lemma {:induction false} MapConcat<T, U>(f: T -> U, a: seq<T>, b: seq<T>)
    ensures Map(f, a + b) == Map(f, a) + Map(f, b)
  {}

  lemma FlattenMapConcat<T, U>(f: T -> seq<U>, a: seq<T>, b: seq<T>)
    ensures Flatten(Map(f, a + b)) == Flatten(Map(f, a)) + Flatten(Map(f, b))
  {
    MapConcat(f, a, b);
    FlattenConcat(Map(f, a), Map(f, b));
  }

  lemma FlattenMapSnoc<T, U>(f: T -> seq<U>, s: seq<T>, x: T)
    ensures Flatten(Map(f, s + [x])) == Flatten(Map(f, s)) + f(x)
  {
    MapConcat(f, s, [x]);
    assert Map(f, [x]) == [f(x)];
    FlattenSnoc(Map(f, s), f(x));
  }

  /** Pieces of the same length. */
  lemma {:induction false} FlattenEven<T, U>(f: T -> seq<U>, s: seq<T>, c: nat)
    requires forall x :: x in s ==> |f(x)| == c
    ensures |Flatten(Map(f, s))| == c * |s|
    decreases |s|
  {
    if |s| > 0 {
      var n := |s| - 1;
      assert s == s[..n] + [s[n]];
      FlattenMapSnoc(f, s[..n], s[n]);
      FlattenEven(f, s[..n], c);
      assert c * (n + 1) == c * n + c;
    }
  }

  /** Mapping and flattening piece by piece is mapping and flattening the whole. */
  lemma {:induction false} FlattenPieces<T, U>(f: T -> seq<U>, chunks: seq<seq<T>>, n: nat)
    requires n <= |chunks|
    ensures FlattenTo(Map((c: seq<T>) => Flatten(Map(f, c)), chunks), n) == Flatten(Map(f, FlattenTo(chunks, n)))
  {
    if n > 0 {
      FlattenPieces(f, chunks, n - 1);
      MapConcat(f, FlattenTo(chunks, n - 1), chunks[n - 1]);
      FlattenConcat(Map(f, FlattenTo(chunks, n - 1)), Map(f, chunks[n - 1]));
    }
  }

  /** Only one of the sequences has elements. */
  lemma {:induction false} FlattenOnly<T>(s: seq<seq<T>>, i: nat, n: nat)
    requires i < |s| && n <= |s| && forall k :: 0 <= k < |s| && k != i ==> s[k] == []
    ensures FlattenTo(s, n) == if i < n then s[i] else []
  {
    if n > 0 {
      FlattenOnly(s, i, n - 1);
    }
  }

  lemma FlattenNone<T>(s: seq<seq<T>>)
    requires forall k :: 0 <= k < |s| ==> s[k] == []
    ensures Flatten(s) == []
  {
    if |s| > 0 {
      FlattenOnly(s, 0, |s|);
    }
  }

  lemma SliceOfSlice<T>(s: seq<T>, lo: nat, hi: nat, i: nat, j: nat)
    requires lo <= hi <= |s| && i <= j <= hi - lo
    ensures s[lo..hi][i..j] == s[lo + i..lo + j]
  {
    forall k | 0 <= k < j - i
      ensures s[lo..hi][i..j][k] == s[lo + i..lo + j][k]
    {}
  }

  lemma SliceOfFront<T>(front: seq<T>, more: seq<T>, lo: nat, hi: nat)
    requires lo <= hi <= |front|
    ensures (front + more)[lo..hi] == front[lo..hi]
  {}

  /** Where a sequence sits in the whole. */
  lemma {:induction false} FlattenSlice<T>(s: seq<seq<T>>, k: nat, n: nat)
    requires k < n <= |s|
    ensures |FlattenTo(s, k)| + |s[k]| == |FlattenTo(s, k + 1)| <= |FlattenTo(s, n)|
    ensures FlattenTo(s, n)[|FlattenTo(s, k)|..|FlattenTo(s, k + 1)|] == s[k]
  {
    if k + 1 < n {
      FlattenSlice(s, k, n - 1);
      SliceOfFront(FlattenTo(s, n - 1), s[n - 1], |FlattenTo(s, k)|, |FlattenTo(s, k + 1)|);
    }
  }

  /** Pairwise different numbers below n. */
  predicate DistinctBelow(s: seq<nat>, n: nat) {
    && (forall i :: 0 <= i < |s| ==> s[i] < n)
    && (forall i, j :: 0 <= i < j < |s| ==> s[i] != s[j])
  }

  /** The numbers below n, in order. */
  function Range(n: nat): (r: seq<nat>)
    ensures |r| == n && forall p :: 0 <= p < n ==> r[p] == p
  {
    seq(n, p requires 0 <= p => p)
  }

  /** Every number below n, once each, in some order. */
  predicate Whole(s: seq<nat>, n: nat) {
    DistinctBelow(s, n) && |s| == n && forall i: nat :: i < n ==> i in s
  }

  lemma RangeIsWhole(n: nat)
    ensures Whole(Range(n), n)
  {
    forall i: nat | i < n
      ensures i in Range(n)
    {
      assert Range(n)[i] == i;
    }
  }

  lemma WithoutLargest(s: seq<nat>, n: nat, k: nat)
    requires DistinctBelow(s, n + 1) && k < |s| && s[k] == n
    ensures DistinctBelow(s[..k] + s[k + 1..], n)
    ensures forall i: nat :: i in s[..k] + s[k + 1..] ==> i in s
  {
    var t := s[..k] + s[k + 1..];
    forall i | 0 <= i < |t|
      ensures t[i] == (if i < k then s[i] else s[i + 1]) && t[i] < n && t[i] in s
    {}
  }

  /** There are at most n of them, and if there are n, they are all numbers below n. */
  lemma {:induction false} DistinctBound(s: seq<nat>, n: nat)
    requires DistinctBelow(s, n)
    ensures |s| <= n
    ensures |s| == n ==> forall i: nat :: i < n ==> i in s
    decreases n
  {
    assert |s| == 0 || s[0] < n;
    if n == 0 {
    } else if n - 1 in s {
      var k :| 0 <= k < |s| && s[k] == n - 1;
      WithoutLargest(s, n - 1, k);
      DistinctBound(s[..k] + s[k + 1..], n - 1);
    } else {
      forall i | 0 <= i < |s|
        ensures s[i] < n - 1
      {
        assert s[i] in s;
      }
      DistinctBound(s, n - 1);
    }
  }
}
