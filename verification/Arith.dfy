/** Division and modulo facts that every index computation of the pipeline rests on. */
module Arith {

  function Min(a: int, b: int): int {
    if a <= b then a else b
  }

  function Max(a: int, b: int): int {
    if a >= b then a else b
  }

  lemma MulMono(a: int, b: int, c: int)
    requires a <= b && 0 <= c
    ensures a * c <= b * c
  {
    assert (b - a) * c >= 0;
  }

  lemma MulDistrib(a: int, b: int, c: int)
    ensures (a + b) * c == a * c + b * c
    ensures c * (a + b) == c * a + c * b
  {}

  /** A quotient and remainder are the only pair that fits. */
  lemma DivModUnique(a: int, d: int, q: int, r: int)
    requires 0 < d && 0 <= r < d && a == q * d + r
    ensures a / d == q && a % d == r
  {
    var q', r' := a / d, a % d;
    assert a == q' * d + r';
    assert (q' - q) * d == r - r' by { MulDistrib(q', -q, d); }
    if q' > q {
      MulMono(1, q' - q, d);
      assert false;
    } else if q' < q {
      MulMono(q' - q, -1, d);
      assert false;
    }
  }

  lemma DivMod(a: int, d: int)
    requires 0 < d
    ensures a == (a / d) * d + a % d && 0 <= a % d < d
    ensures 0 <= a ==> 0 <= a / d
  {
    if 0 <= a && a / d < 0 {
      MulMono(a / d, -1, d);
      assert false;
    }
  }

  lemma DivUpper(a: int, d: int, q: int)
    requires 0 < d && a < q * d
    ensures a / d < q
  {
    DivMod(a, d);
    if q <= a / d {
      MulMono(q, a / d, d);
    }
  }

  lemma DivLower(a: int, d: int, q: int)
    requires 0 < d && q * d <= a
    ensures q <= a / d
  {
    DivMod(a, d);
    if a / d + 1 <= q {
      MulMono(a / d + 1, q, d);
      MulDistrib(a / d, 1, d);
    }
  }

  /** The cell (q, r) of a row-major grid with rows of length d lies before row n when q < n. */
  lemma RowMajorBound(q: int, r: int, d: int, n: int)
    requires 0 <= q < n && 0 <= r < d
    ensures 0 <= q * d + r < n * d
  {
    MulMono(q + 1, n, d);
    MulDistrib(q, 1, d);
    MulMono(0, q, d);
  }

  /** Row-major coordinates with rows of length d are unique. */
  lemma RowMajorUnique(q: int, r: int, q': int, r': int, d: int)
    requires 0 <= r < d && 0 <= r' < d && q * d + r == q' * d + r'
    ensures q == q' && r == r'
  {
    DivModUnique(q * d + r, d, q, r);
    DivModUnique(q' * d + r', d, q', r');
  }
}
