/**
 * Shapes, points and row-major offsets for any number of dimensions, as the
 * basic_tuple family of core/include/oneseismic/geometry.hpp uses them.
 */
module Shapes {
  import opened Arith

  type Tuple = seq<nat>

  predicate Positive(s: Tuple) {
    forall i :: 0 <= i < |s| ==> s[i] > 0
  }

  /** p is a point of the shape s: it holds that p[i] < s[i]. */
  predicate InShape(p: Tuple, s: Tuple) {
    |p| == |s| && forall i :: 0 <= i < |s| ==> p[i] < s[i]
  }

  function Prod(s: Tuple): nat {
    if |s| == 0 then 1 else s[0] * Prod(s[1..])
  }

  function Offset(p: Tuple, s: Tuple): nat
    requires |p| == |s|
  {
    if |s| == 0 then 0 else p[0] * Prod(s[1..]) + Offset(p[1..], s[1..])
  }

  /** The point at a row-major offset: the inverse of Offset. */
  function PointAt(o: nat, s: Tuple): (p: Tuple)
    requires Positive(s)
    ensures |p| == |s|
  {
    if |s| == 0 then [] else
      ProdPositive(s[1..]);
      DivMod(o, Prod(s[1..]));
      [o / Prod(s[1..])] + PointAt(o % Prod(s[1..]), s[1..])
  }

  /** The tuple without slot d: the remaining slots keep their order. */
  function Squeeze(s: Tuple, d: nat): (r: Tuple)
    requires d < |s|
    ensures |r| == |s| - 1
  {
    s[..d] + s[d + 1..]
  }

  lemma {:induction false} ProdPositive(s: Tuple)
    requires Positive(s)
    ensures Prod(s) > 0
  {
    if |s| > 0 {
      ProdPositive(s[1..]);
      MulMono(1, s[0], Prod(s[1..]));
    }
  }

  lemma {:induction false} ProdConcat(a: Tuple, b: Tuple)
    ensures Prod(a + b) == Prod(a) * Prod(b)
  {
    if |a| == 0 {
      assert a + b == b;
    } else {
      assert (a + b)[1..] == a[1..] + b;
      ProdConcat(a[1..], b);
      assert a[0] * (Prod(a[1..]) * Prod(b)) == (a[0] * Prod(a[1..])) * Prod(b);
    }
  }

  /** A row-major offset splits at any slot: the front counts blocks of the back's size. */
  lemma {:induction false} OffsetConcat(p: Tuple, q: Tuple, a: Tuple, b: Tuple)
    requires |p| == |a| && |q| == |b|
    ensures Offset(p + q, a + b) == Offset(p, a) * Prod(b) + Offset(q, b)
  {
    if |a| == 0 {
      assert p + q == q && a + b == b;
    } else {
      assert (a + b)[1..] == a[1..] + b && (p + q)[1..] == p[1..] + q;
      OffsetConcat(p[1..], q, a[1..], b);
      ProdConcat(a[1..], b);
      SplitRow(p[0], Prod(a[1..]), Offset(p[1..], a[1..]), Prod(b), Offset(q, b));
    }
  }

  lemma SplitRow(x: int, y: int, o: int, z: int, t: int)
    ensures x * (y * z) + (o * z + t) == (x * y + o) * z + t
  {
    assert x * (y * z) == (x * y) * z;
    MulDistrib(x * y, o, z);
  }

  /** Offsets of points stay below the number of samples. */
  lemma {:induction false} OffsetBound(p: Tuple, s: Tuple)
    requires InShape(p, s)
    ensures Offset(p, s) < Prod(s)
  {
    if |s| > 0 {
      OffsetBound(p[1..], s[1..]);
      RowMajorBound(p[0], Offset(p[1..], s[1..]), Prod(s[1..]), s[0]);
    }
  }

  /** Distinct points have distinct offsets. */
  lemma {:induction false} OffsetInjective(p: Tuple, q: Tuple, s: Tuple)
    requires InShape(p, s) && InShape(q, s) && Offset(p, s) == Offset(q, s)
    ensures p == q
  {
    if |s| > 0 {
      OffsetBound(p[1..], s[1..]);
      OffsetBound(q[1..], s[1..]);
      DivModUnique(Offset(p, s), Prod(s[1..]), p[0], Offset(p[1..], s[1..]));
      DivModUnique(Offset(q, s), Prod(s[1..]), q[0], Offset(q[1..], s[1..]));
      OffsetInjective(p[1..], q[1..], s[1..]);
      assert p == [p[0]] + p[1..] && q == [q[0]] + q[1..];
    }
  }

  /** Every offset below the number of samples is the offset of the point PointAt gives. */
  lemma {:induction false} OffsetSurjective(o: nat, s: Tuple)
    requires Positive(s) && o < Prod(s)
    ensures InShape(PointAt(o, s), s) && Offset(PointAt(o, s), s) == o
  {
    if |s| > 0 {
      var rest := s[1..];
      ProdPositive(rest);
      DivMod(o, Prod(rest));
      DivUpper(o, Prod(rest), s[0]);
      OffsetSurjective(o % Prod(rest), rest);
      var p := PointAt(o, s);
      assert p[1..] == PointAt(o % Prod(rest), rest);
    }
  }

  lemma PointOfOffset(p: Tuple, s: Tuple)
    requires InShape(p, s) && Positive(s)
    ensures PointAt(Offset(p, s), s) == p
  {
    OffsetBound(p, s);
    OffsetSurjective(Offset(p, s), s);
    OffsetInjective(PointAt(Offset(p, s), s), p, s);
  }

  lemma OffsetTail(p: Tuple, s: Tuple, d: nat)
    requires |p| == |s| && d < |s|
    ensures Prod(s[d..]) == s[d] * Prod(s[d + 1..])
    ensures Offset(p[d..], s[d..]) == p[d] * Prod(s[d + 1..]) + Offset(p[d + 1..], s[d + 1..])
  {
    assert p[d..][1..] == p[d + 1..] && s[d..][1..] == s[d + 1..];
  }

  lemma OffsetParts(p: Tuple, s: Tuple, d: nat)
    requires |p| == |s| && d < |s|
    ensures Offset(p, s) == Offset(p[..d], s[..d]) * Prod(s[d..]) + Offset(p[d..], s[d..])
  {
    OffsetConcat(p[..d], p[d..], s[..d], s[d..]);
    assert p[..d] + p[d..] == p && s[..d] + s[d..] == s;
  }

  /** Dropping slot d from a point: the offset in the squeezed shape. */
  lemma OffsetSqueezed(p: Tuple, s: Tuple, d: nat)
    requires |p| == |s| && d < |s|
    ensures Offset(Squeeze(p, d), Squeeze(s, d)) ==
            Offset(p[..d], s[..d]) * Prod(s[d + 1..]) + Offset(p[d + 1..], s[d + 1..])
  {
    OffsetConcat(p[..d], p[d + 1..], s[..d], s[d + 1..]);
  }

  /** A slot of one side is no slot: the offset is that of the squeezed point. */
  lemma OffsetFlattened(p: Tuple, s: Tuple, d: nat)
    requires |p| == |s| && d < |s|
    ensures Offset(p[d := 0], s[d := 1]) == Offset(Squeeze(p, d), Squeeze(s, d))
  {
    var p', s' := p[d := 0], s[d := 1];
    OffsetParts(p', s', d);
    OffsetTail(p', s', d);
    OffsetSqueezed(p, s, d);
    assert p'[..d] == p[..d] && p'[d + 1..] == p[d + 1..] && s'[..d] == s[..d] && s'[d + 1..] == s[d + 1..];
  }

  lemma SplitSum(f: int, n: int, x: int, c: int)
    ensures f * (n * c) + x * c == (f * n + x) * c
  {
    assert f * (n * c) == (f * n) * c;
    MulDistrib(f * n, x, c);
  }
}
