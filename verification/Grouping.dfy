/**
 * Organising the points of a curtain by fragment: group_by_fragment_inplace of
 * core/src/messages.cpp.
 */
module Grouping {
  import opened Lists
  import opened Arith
  import opened Geometry
  import opened CurtainPlan

  /*
   * A stable sort
   */

  function InsertBy<T>(less: (T, T) -> bool, x: T, s: seq<T>): seq<T> {
    if |s| > 0 && less(s[0], x) then [s[0]] + InsertBy(less, x, s[1..]) else [x] + s
  }

  /** What std::stable_sort makes of a sequence; elements that do not differ keep their order. */
  function SortBy<T>(less: (T, T) -> bool, s: seq<T>): seq<T> {
    if |s| == 0 then [] else InsertBy(less, s[0], SortBy(less, s[1..]))
  }

  lemma {:induction false} InsertPermutes<T>(less: (T, T) -> bool, x: T, s: seq<T>)
    ensures multiset(InsertBy(less, x, s)) == multiset(s) + multiset{x}
  {
    if |s| > 0 && less(s[0], x) {
      InsertPermutes(less, x, s[1..]);
      assert s == [s[0]] + s[1..];
    }
  }

  lemma {:induction false} SortPermutes<T>(less: (T, T) -> bool, s: seq<T>)
    ensures Permutation(SortBy(less, s), s)
  {
    if |s| > 0 {
      SortPermutes(less, s[1..]);
      InsertPermutes(less, s[0], SortBy(less, s[1..]));
      assert s == [s[0]] + s[1..];
    }
  }

  ghost predicate Ordered<T(!new)>(leq: (T, T) -> bool, s: seq<T>) {
    forall i, j :: 0 <= i < j < |s| ==> leq(s[i], s[j])
  }

  ghost predicate Transitive<T(!new)>(leq: (T, T) -> bool) {
    forall a, b, c :: leq(a, b) && leq(b, c) ==> leq(a, c)
  }

  /** Where less and leq agree about x, inserting x keeps the order. */
  lemma {:induction false} InsertKeepsOrder<T(!new)>(less: (T, T) -> bool, leq: (T, T) -> bool, x: T, s: seq<T>)
    requires Transitive(leq) && Ordered(leq, s)
    requires forall e :: e in s ==> if less(e, x) then leq(e, x) else leq(x, e)
    ensures Ordered(leq, InsertBy(less, x, s))
  {
    if |s| > 0 && less(s[0], x) {
      InsertKeepsOrder(less, leq, x, s[1..]);
      InsertPermutes(less, x, s[1..]);
      var r := InsertBy(less, x, s[1..]);
      forall j | 0 <= j < |r|
        ensures leq(s[0], r[j])
      {
        assert r[j] in multiset(r);
        assert r[j] == x || r[j] in s[1..];
      }
    } else {
      forall j | 0 <= j < |s|
        ensures leq(x, s[j])
      {
        assert s[0] in s;
        assert j == 0 || leq(s[0], s[j]);
      }
    }
  }

  /*
   * Grouping
   */

  predicate PairLeq(a: Point, b: Point) {
    PairLess(a, b) || a == b
  }

  predicate FragmentLess(g: Gvt, a: Point, b: Point)
    requires Curtain(g)
  {
    IdLess(g.FragId(Top(a)), g.FragId(Top(b)))
  }

  /** First by fragment, then by point. */
  predicate GroupLeq(g: Gvt, a: Point, b: Point)
    requires Curtain(g)
  {
    PairLess(Key(g, a), Key(g, b)) || (Key(g, a) == Key(g, b) && PairLeq(a, b))
  }

  function Grouped(g: Gvt, pts: seq<Point>): seq<Point>
    requires Curtain(g)
  {
    SortBy((a, b) => Curtain(g) && FragmentLess(g, a, b), SortBy(PairLess, pts))
  }

  lemma FragmentLessIs(g: Gvt, a: Point, b: Point)
    requires Curtain(g)
    ensures FragmentLess(g, a, b) <==> PairLess(Key(g, a), Key(g, b))
  {
    DivModUnique(0, g.frag[2], 0, 0);
    assert g.FragId(Top(a)) == [Key(g, a).0, Key(g, a).1, 0];
    assert g.FragId(Top(b)) == [Key(g, b).0, Key(g, b).1, 0];
  }

  lemma {:induction false} PairsSorted(pts: seq<Point>)
    ensures Ordered(PairLeq, SortBy(PairLess, pts))
  {
    if |pts| > 0 {
      PairsSorted(pts[1..]);
      InsertKeepsOrder(PairLess, PairLeq, pts[0], SortBy(PairLess, pts[1..]));
    }
  }

  lemma {:induction false} FragmentsSorted(g: Gvt, pts: seq<Point>)
    requires Curtain(g) && Ordered(PairLeq, pts)
    ensures Ordered((a, b) => Curtain(g) && GroupLeq(g, a, b),
                    SortBy((a, b) => Curtain(g) && FragmentLess(g, a, b), pts))
  {
    if |pts| > 0 {
      var less := (a: Point, b: Point) => Curtain(g) && FragmentLess(g, a, b);
      var leq := (a: Point, b: Point) => Curtain(g) && GroupLeq(g, a, b);
      var rest := SortBy(less, pts[1..]);
      FragmentsSorted(g, pts[1..]);
      SortPermutes(less, pts[1..]);
      forall e | e in rest
        ensures if less(e, pts[0]) then leq(e, pts[0]) else leq(pts[0], e)
      {
        assert e in multiset(rest);
        assert e in pts[1..];
        var i :| 1 <= i < |pts| && pts[i] == e;
        assert PairLeq(pts[0], pts[i]);
        FragmentLessIs(g, e, pts[0]);
      }
      InsertKeepsOrder(less, leq, pts[0], rest);
    }
  }

  /** The grouped points are the same points, ordered by fragment and then by point. */
  lemma GroupedOrdered(g: Gvt, pts: seq<Point>)
    requires Curtain(g)
    ensures Permutation(Grouped(g, pts), pts)
    ensures forall i, j :: 0 <= i < j < |Grouped(g, pts)| ==> GroupLeq(g, Grouped(g, pts)[i], Grouped(g, pts)[j])
  {
    var pairs := SortBy(PairLess, pts);
    var less := (a: Point, b: Point) => Curtain(g) && FragmentLess(g, a, b);
    SortPermutes(PairLess, pts);
    PairsSorted(pts);
    SortPermutes(less, pairs);
    FragmentsSorted(g, pairs);
  }

  /** All rows of a column are next to each other. */
  ghost predicate Contiguous(g: Gvt, pts: seq<Point>)
    requires Curtain(g)
  {
    forall i, j, k :: 0 <= i < j < k < |pts| && Key(g, pts[i]) == Key(g, pts[k]) ==> Key(g, pts[j]) == Key(g, pts[i])
  }

  lemma GroupedContiguous(g: Gvt, pts: seq<Point>)
    requires Curtain(g)
    ensures Contiguous(g, Grouped(g, pts))
  {
    GroupedOrdered(g, pts);
    var s := Grouped(g, pts);
    forall i, j, k | 0 <= i < j < k < |s| && Key(g, s[i]) == Key(g, s[k])
      ensures Key(g, s[j]) == Key(g, s[i])
    {
      assert GroupLeq(g, s[i], s[j]) && GroupLeq(g, s[j], s[k]);
    }
  }

  lemma PermutedIn(g: Gvt, s: seq<Point>, pts: seq<Point>)
    requires Curtain(g) && PointsIn(g, pts) && Permutation(s, pts)
    ensures PointsIn(g, s)
  {
    forall r | 0 <= r < |s|
      ensures s[r].0 < g.cube[0] && s[r].1 < g.cube[1]
    {
      assert s[r] in multiset(s);
      assert s[r] in pts;
    }
  }

  /** The coordinates of a curtain, as two parallel lists. */
  class CurtainCoordinates {
    var dim0s: seq<nat>
    var dim1s: seq<nat>

    ghost predicate Valid()
      reads this
    {
      |dim0s| == |dim1s|
    }

    ghost function Points(): (r: seq<Point>)
      requires Valid()
      reads this
      ensures |r| == |dim0s|
    {
      seq(|dim0s|, i requires 0 <= i < |dim0s| && Valid() reads this => (dim0s[i], dim1s[i]))
    }

    constructor (dim0s: seq<nat>, dim1s: seq<nat>)
      requires |dim0s| == |dim1s|
      ensures Valid() && this.dim0s == dim0s && this.dim1s == dim1s
    {
      this.dim0s, this.dim1s := dim0s, dim1s;
    }

    method GroupByFragmentInplace(g: Gvt)
      requires Valid() && Curtain(g)
      modifies this
      ensures Valid() && Points() == Grouped(g, old(Points()))
    {
      var pairs: seq<Point> := [];
      for i := 0 to |dim0s|
        invariant pairs == Points()[..i]
      {
        pairs := pairs + [(dim0s[i], dim1s[i])];
      }
      assert pairs == Points();
      ghost var before := pairs;
      pairs := SortBy(PairLess, pairs);
      pairs := SortBy((a, b) => Curtain(g) && FragmentLess(g, a, b), pairs);
      GroupedOrdered(g, before);
      PermutationLength(pairs, before);
      for i := 0 to |pairs|
        invariant |dim0s| == |dim1s| == |pairs|
        invariant forall k :: 0 <= k < i ==> (dim0s[k], dim1s[k]) == pairs[k]
      {
        dim0s := dim0s[i := pairs[i].0];
        dim1s := dim1s[i := pairs[i].1];
      }
      assert Points() == pairs;
    }
  }
}
