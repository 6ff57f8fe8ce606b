/**
 * The computed side of core/include/oneseismic/geometry.impl.hpp: products and
 * offsets with their int accumulators, the slice layouts, and the fragments
 * cut by a plane.
 */
module Strides {
  import opened Arith
  import opened Shapes
  import opened Geometry

  datatype Result<+T> = Ok(value: T) | OutOfRange

  lemma PrefixProd(r: Tuple, i: nat)
    requires i < |r|
    ensures Prod(r[..i + 1]) == Prod(r[..i]) * r[i]
  {
    ProdConcat(r[..i], [r[i]]);
    assert r[..i + 1] == r[..i] + [r[i]];
    assert [r[i]][1..] == [];
  }

  lemma PrefixProdBound(r: Tuple, i: nat)
    requires i <= |r| && Positive(r)
    ensures 0 < Prod(r[..i]) <= Prod(r)
  {
    ProdPositive(r[..i]);
    ProdPositive(r[i..]);
    ProdConcat(r[..i], r[i..]);
    assert r == r[..i] + r[i..];
    MulMono(1, Prod(r[i..]), Prod(r[..i]));
  }

  /**
   * std::accumulate takes the type of its accumulator from the literal 1: every
   * partial product is computed as a size_t and then stored in an int.
   */
  method Product(r: Tuple) returns (p: nat)
    ensures Positive(r) && Prod(r) < SIZE_RANGE - INT_MAX - 1 ==> (p == Prod(r) <==> Prod(r) <= INT_MAX)
  {
    var acc: int := 1;
    for i := 0 to |r|
      invariant -INT_MAX - 1 <= acc <= INT_MAX
      invariant Positive(r) && Prod(r) <= INT_MAX ==> acc == Prod(r[..i])
    {
      PrefixProd(r, i);
      if Positive(r) {
        PrefixProdBound(r, i + 1);
      }
      acc := ToInt(ToSize(ToSize(acc) * r[i]));
    }
    assert r[..|r|] == r;
    p := ToSize(acc);
    if acc < 0 {
      DivModUnique(acc, SIZE_RANGE, -1, acc + SIZE_RANGE);
    }
  }

  lemma SuffixProd(s: Tuple, k: nat)
    requires k < |s|
    ensures Prod(s[k..]) == s[k] * Prod(s[k + 1..])
  {
    assert s[k..][1..] == s[k + 1..];
  }

  lemma SuffixProdBound(s: Tuple, k: nat)
    requires k <= |s| && Positive(s)
    ensures 0 < Prod(s[k..]) <= Prod(s)
  {
    ProdPositive(s[..k]);
    ProdPositive(s[k..]);
    ProdConcat(s[..k], s[k..]);
    assert s == s[..k] + s[k..];
    MulMono(1, Prod(s[..k]), Prod(s[k..]));
  }

  lemma OneSlot(x: nat, n: nat)
    ensures Offset([x], [n]) == x && Prod([n]) == n
  {
    assert [x][1..] == [] && [n][1..] == [];
    assert Prod([n][1..]) == 1;
  }

  /** The inner product of a point with the suffix products, up to slot i. */
  function Partial(p: Tuple, s: Tuple, i: nat): nat
    requires |p| == |s| && i <= |s|
  {
    Offset(p[..i], s[..i]) * Prod(s[i..])
  }

  lemma PartialStep(p: Tuple, s: Tuple, i: nat)
    requires |p| == |s| && i < |s|
    ensures Partial(p, s, i) + p[i] * Prod(s[i + 1..]) == Partial(p, s, i + 1)
  {
    SuffixProd(s, i);
    assert p[..i + 1] == p[..i] + [p[i]] && s[..i + 1] == s[..i] + [s[i]];
    OffsetConcat(p[..i], [p[i]], s[..i], [s[i]]);
    OneSlot(p[i], s[i]);
    SplitSum(Offset(p[..i], s[..i]), s[i], p[i], Prod(s[i + 1..]));
  }

  /** No partial sum passes the whole offset. */
  lemma PartialBound(p: Tuple, s: Tuple, i: nat)
    requires |p| == |s| && i <= |s|
    ensures Partial(p, s, i) <= Offset(p, s)
  {
    OffsetConcat(p[..i], p[i..], s[..i], s[i..]);
    assert p[..i] + p[i..] == p && s[..i] + s[i..] == s;
  }

  lemma SuffixStep(s: Tuple, k: nat, x: nat)
    requires k < |s| && Positive(s) && Prod(s) <= INT_MAX && x == Prod(s[k + 1..])
    ensures ToSize(x * s[k]) == Prod(s[k..])
  {
    SuffixProd(s, k);
    SuffixProdBound(s, k);
  }

  /** Slot j, from index k, holds the product of the slots after it. */
  ghost predicate IsSuffixProducts(r: seq<nat>, s: Tuple, k: nat) {
    |r| + k == |s| && forall j :: 0 <= j < |r| ==> r[j] == Prod(s[k + j + 1..])
  }

  /** The partial sums of the reversed shape. */
  method SuffixProducts(s: Tuple) returns (r: seq<nat>)
    requires |s| > 0
    ensures |r| == |s|
    ensures Positive(s) && Prod(s) <= INT_MAX ==> IsSuffixProducts(r, s, 0)
  {
    r := [1];
    var k := |s| - 1;
    while k > 0
      invariant 0 <= k < |s| && |r| + k == |s|
      invariant Positive(s) && Prod(s) <= INT_MAX ==> IsSuffixProducts(r, s, k)
    {
      if Positive(s) && Prod(s) <= INT_MAX {
        assert r[0] == Prod(s[k + 0 + 1..]);
        SuffixStep(s, k, r[0]);
      }
      r := [ToSize(r[0] * s[k])] + r;
      k := k - 1;
    }
  }

  /**
   * get_offset: suffix products of the shape, then an inner product that
   * std::inner_product accumulates in an int.
   */
  method GetOffset(p: Tuple, s: Tuple) returns (off: nat)
    requires |p| == |s| > 0
    ensures Positive(s) && InShape(p, s) && Prod(s) <= INT_MAX ==> off == Offset(p, s)
  {
    var dimProduct := SuffixProducts(s);
    ghost var fits := Positive(s) && InShape(p, s) && Prod(s) <= INT_MAX;
    if fits {
      OffsetBound(p, s);
    }
    var acc: int := 0;
    for i := 0 to |s|
      invariant -INT_MAX - 1 <= acc <= INT_MAX
      invariant fits ==> acc == Partial(p, s, i)
    {
      PartialStep(p, s, i);
      PartialBound(p, s, i + 1);
      assert fits ==> dimProduct[i] == Prod(s[0 + i + 1..]);
      acc := ToInt(ToSize(acc + ToSize(p[i] * dimProduct[i])));
    }
    assert p[..|s|] == p && s[..|s|] == s && s[|s|..] == [];
    off := ToSize(acc);
  }

  method ToLocal(g: Gvt, p: Tuple) returns (l: Tuple)
    requires g.Valid() && InShape(p, g.cube)
    ensures l == g.Local(p)
  {
    l := [];
    for i := 0 to |g.cube|
      invariant l == g.Local(p)[..i]
    {
      DivMod(p[i], g.frag[i]);
      l := l + [p[i] % g.frag[i]];
    }
  }

  method FragmentOf(g: Gvt, p: Tuple) returns (fid: Tuple)
    requires g.Valid() && InShape(p, g.cube)
    ensures fid == g.FragId(p)
  {
    fid := [];
    for i := 0 to |g.cube|
      invariant fid == g.FragId(p)[..i]
    {
      DivMod(p[i], g.frag[i]);
      fid := fid + [p[i] / g.frag[i]];
    }
  }

  method ToGlobal(g: Gvt, fid: Tuple, l: Tuple) returns (p: Tuple)
    requires g.Valid() && InShape(fid, g.Counts()) && InShape(l, g.RealShape(fid))
    ensures p == g.Global(fid, l)
    ensures InShape(p, g.cube)
  {
    p := [];
    for i := 0 to |g.cube|
      invariant p == g.Global(fid, l)[..i]
    {
      p := p + [fid[i] * g.frag[i] + l[i]];
    }
    FragmentRoundTrip(g, fid, l);
  }

  function Zeros(n: nat): Tuple {
    seq(n, _ => 0)
  }

  /** What injecting a fragment in a cube of the given geometry takes. */
  function InjectionLayout(g: Gvt, fid: Tuple): Layout
    requires g.Valid() && |fid| == |g.cube| > 0
  {
    var last := |g.cube| - 1;
    Layout(Prod(g.RealShape(fid)[..last]), g.RealShape(fid)[last],
           Offset(g.Global(fid, Zeros(|fid|)), g.cube), g.cube[last], g.frag[last])
  }

  lemma InjectionDims(g: Gvt, fid: Tuple)
    requires g.Valid() && |g.cube| > 0 && InShape(fid, g.Counts())
    ensures var dims := g.RealShape(fid)[|g.cube| - 1 := 1];
            Positive(dims) && Prod(dims) == Prod(g.RealShape(fid)[..|g.cube| - 1]) <= Prod(g.cube)
  {
    var last, extent := |g.cube| - 1, g.RealShape(fid);
    RealShapeBounds(g, fid);
    assert extent[last := 1] == extent[..last] + [1];
    ProdConcat(extent[..last], [1]);
    OneSlot(0, 1);
    PrefixProdBound(extent, last);
    ProdMono(extent, g.cube);
  }

  method InjectionStride(g: Gvt, fid: Tuple) returns (s: Layout)
    requires g.Valid() && |g.cube| > 0 && InShape(fid, g.Counts())
    requires Prod(g.cube) <= INT_MAX
    ensures s == InjectionLayout(g, fid)
  {
    var last := |g.cube| - 1;
    RealShapeBounds(g, fid);
    var global := ToGlobal(g, fid, Zeros(|fid|));
    var skip := GetOffset(global, g.cube);
    var dims := [];
    for d := 0 to |g.cube|
      invariant dims == g.RealShape(fid)[..d]
    {
      dims := dims + [g.frag[d] - g.Padding(fid, d)];
    }
    dims := dims[last := 1];
    assert dims == g.RealShape(fid)[last := 1];
    InjectionDims(g, fid);
    var iterations := Product(dims);
    s := Layout(iterations, g.frag[last] - g.Padding(fid, last), skip, g.cube[last], g.frag[last]);
  }

  function Ones(n: nat): Tuple {
    seq(n, _ => 1)
  }

  lemma {:induction false} ProdOnes(n: nat)
    ensures Prod(Ones(n)) == 1
  {
    if n > 0 {
      assert Ones(n)[1..] == Ones(n - 1);
      ProdOnes(n - 1);
    }
  }

  /** Set the slots from lo up to hi to one. */
  method FlattenSlots(shape: Tuple, lo: nat, hi: nat) returns (r: Tuple)
    requires lo <= hi <= |shape|
    ensures r == shape[..lo] + Ones(hi - lo) + shape[hi..]
  {
    r := shape;
    for i := lo to hi
      invariant r == shape[..lo] + Ones(i - lo) + shape[i..]
    {
      r := r[i := 1];
      assert Ones(i + 1 - lo) == Ones(i - lo) + [1];
    }
  }

  lemma ProdFlattened(a: Tuple, n: nat, b: Tuple)
    ensures Prod(a + Ones(n) + b) == Prod(a) * Prod(b)
  {
    ProdConcat(a + Ones(n), b);
    ProdConcat(a, Ones(n));
    ProdOnes(n);
  }

  /** What extracting the plane of slot d from a fragment takes. */
  function ExtractionLayout(fs: Tuple, d: nat): Layout
    requires d < |fs|
  {
    Layout(Prod(fs[..d]), Prod(fs[d + 1..]), Prod(fs[d + 1..]), Prod(fs[d..]), Prod(fs[d + 1..]))
  }

  method SliceStride(fs: Tuple, d: nat) returns (s: Layout)
    requires d < |fs| && Positive(fs) && Prod(fs) <= INT_MAX
    ensures s == ExtractionLayout(fs, d)
  {
    var n := |fs|;
    var front := FlattenSlots(fs, d, n);
    ProdFlattened(fs[..d], n - d, []);
    assert front == fs[..d] + Ones(n - d) + [];
    PrefixProdBound(fs, d);
    var iterations := Product(front);
    var back := FlattenSlots(fs, 0, d + 1);
    ProdFlattened([], d + 1, fs[d + 1..]);
    assert back == [] + Ones(d + 1) + fs[d + 1..];
    SuffixProdBound(fs, d + 1);
    var chunkSize := Product(back);
    var initialSkip := Product(back);
    var block := FlattenSlots(fs, 0, d);
    ProdFlattened([], d, fs[d..]);
    assert block == [] + Ones(d) + fs[d..];
    SuffixProdBound(fs, d);
    var superstride := Product(block);
    s := Layout(iterations, chunkSize, initialSkip, superstride, chunkSize);
  }

  /** The widths of the grid of fragments cut by a plane of slot dim: the pinned slot has one. */
  function PlaneWidths(g: Gvt, dim: nat): (r: Tuple)
    requires g.Valid() && dim < |g.cube|
    ensures |r| == |g.cube|
    ensures Positive(r)
  {
    CountsPositive(g);
    g.Counts()[dim := 1]
  }

  /** The fragment at position m of the row-major list of fragments cut by plane `no` of slot dim. */
  function PlaneFragment(g: Gvt, dim: nat, no: nat, m: nat): (r: Tuple)
    requires g.Valid() && dim < |g.cube|
    ensures |r| == |g.cube|
  {
    DivMod(no, g.frag[dim]);
    PointAt(m, PlaneWidths(g, dim))[dim := no / g.frag[dim]]
  }

  /** All fragments cut by a plane, in row-major order. */
  function PlaneFragments(g: Gvt, dim: nat, no: nat): (r: seq<Tuple>)
    requires g.Valid() && dim < |g.cube|
    ensures |r| == Prod(PlaneWidths(g, dim))
  {
    seq(Prod(PlaneWidths(g, dim)), m requires 0 <= m => PlaneFragment(g, dim, no, m))
  }

  lemma PlaneFragmentOf(g: Gvt, dim: nat, no: nat, f: Tuple)
    requires g.Valid() && dim < |g.cube|
    requires |f| == |g.cube| && InShape(f[dim := 0], PlaneWidths(g, dim)) && f[dim] == no / g.frag[dim]
    ensures PlaneFragment(g, dim, no, Offset(f[dim := 0], PlaneWidths(g, dim))) == f
  {
    PointOfOffset(f[dim := 0], PlaneWidths(g, dim));
  }

  /** The fragments of a plane are those of the grid with the pinned index, each listed once. */
  lemma PlaneFragmentsExact(g: Gvt, dim: nat, no: nat)
    requires g.Valid() && dim < |g.cube| && no < g.cube[dim]
    ensures forall f :: f in PlaneFragments(g, dim, no) <==>
                        InShape(f, g.Counts()) && f[dim] == no / g.frag[dim]
    ensures forall i, j :: 0 <= i < j < |PlaneFragments(g, dim, no)| ==>
                             PlaneFragments(g, dim, no)[i] != PlaneFragments(g, dim, no)[j]
  {
    var w, fs := PlaneWidths(g, dim), PlaneFragments(g, dim, no);
    var pin := no / g.frag[dim];
    GlobalToLocal(g.cube[dim], g.frag[dim], no);
    forall m | 0 <= m < |fs|
      ensures InShape(fs[m], g.Counts()) && fs[m][dim] == pin
      ensures Offset(fs[m][dim := 0], w) == m
    {
      OffsetSurjective(m, w);
      assert fs[m][dim := 0] == PointAt(m, w);
    }
    forall f | InShape(f, g.Counts()) && f[dim] == pin
      ensures f in fs
    {
      var q := f[dim := 0];
      assert InShape(q, w);
      OffsetBound(q, w);
      PlaneFragmentOf(g, dim, no, f);
      assert fs[Offset(q, w)] == f;
    }
  }

  /** The widths of ranges that are not empty. */
  function Widths(begins: Tuple, ends: Tuple): (w: Tuple)
    requires |begins| == |ends| && forall i :: 0 <= i < |begins| ==> begins[i] < ends[i]
    ensures |w| == |begins| && Positive(w)
  {
    seq(|begins|, i requires 0 <= i < |begins| => ends[i] - begins[i])
  }

  function Plus(a: Tuple, b: Tuple): (r: Tuple)
    requires |a| == |b|
    ensures |r| == |a|
  {
    seq(|a|, i requires 0 <= i < |a| => a[i] + b[i])
  }

  /** The tuples start with the frame and go through the remaining slots in row-major order. */
  ghost predicate Listed(begins: Tuple, w: Tuple, frame: Tuple, r: seq<Tuple>)
    requires |begins| == |w| && Positive(w) && |frame| <= |w|
  {
    forall m :: 0 <= m < |r| ==> r[m] == frame + Plus(begins[|frame|..], PointAt(m, w[|frame|..]))
  }

  /** Point k of row i of a shape, whose rows have c points. */
  lemma RowOfPoints(w: Tuple, i: nat, k: nat, c: nat, m: nat)
    requires Positive(w) && |w| > 0 && c == Prod(w[1..]) && k < c && m == i * c + k
    ensures PointAt(m, w) == [i] + PointAt(k, w[1..])
  {
    DivModUnique(m, c, i, k);
  }

  /** What is listed at place k of row i of a slot is what is listed at place m of all its rows. */
  lemma RowListed(begins: Tuple, w: Tuple, frame: Tuple, i: nat, k: nat, c: nat, m: nat)
    requires |begins| == |w| && Positive(w) && |frame| < |w|
    requires c == Prod(w[|frame| + 1..]) && k < c && m == i * c + k
    ensures var d := |frame|;
            frame + Plus(begins[d..], PointAt(m, w[d..]))
            == frame + [begins[d] + i] + Plus(begins[d + 1..], PointAt(k, w[d + 1..]))
  {
    var d := |frame|;
    assert w[d..][1..] == w[d + 1..];
    RowOfPoints(w[d..], i, k, c, m);
    var p := PointAt(k, w[d + 1..]);
    assert Plus(begins[d..], [i] + p) == [begins[d] + i] + Plus(begins[d + 1..], p);
  }

  /** One more round of the loop over a slot lists one more row. */
  lemma ListRow(begins: Tuple, w: Tuple, frame: Tuple, i: nat, c: nat, r: seq<Tuple>, row: seq<Tuple>)
    requires |begins| == |w| && Positive(w) && |frame| < |w|
    requires c == Prod(w[|frame| + 1..]) && |row| == c && |r| == i * c && Listed(begins, w, frame, r)
    requires Listed(begins, w, frame + [begins[|frame|] + i], row)
    ensures Listed(begins, w, frame, r + row) && |r + row| == (i + 1) * c
  {
    forall m | 0 <= m < |r + row|
      ensures (r + row)[m] == frame + Plus(begins[|frame|..], PointAt(m, w[|frame|..]))
    {
      if m >= |r| {
        RowListed(begins, w, frame, i, m - |r|, c, m);
      }
    }
    MulDistrib(i, 1, c);
  }

  /** The loops over the slots behind the frame, one inside the other. */
  method Nested(begins: Tuple, ends: Tuple, frame: Tuple) returns (r: seq<Tuple>)
    requires |begins| == |ends| && forall i :: 0 <= i < |begins| ==> begins[i] < ends[i]
    requires |frame| <= |begins|
    ensures |r| == Prod(Widths(begins, ends)[|frame|..])
    ensures Listed(begins, Widths(begins, ends), frame, r)
    decreases |begins| - |frame|
  {
    ghost var w := Widths(begins, ends);
    var d := |frame|;
    if d == |begins| {
      return [frame];
    }
    SuffixProd(w, d);
    r := [];
    for x := begins[d] to ends[d]
      invariant |r| == (x - begins[d]) * Prod(w[d + 1..]) && Listed(begins, w, frame, r)
    {
      var row := Nested(begins, ends, frame + [x]);
      ListRow(begins, w, frame, x - begins[d], Prod(w[d + 1..]), r, row);
      r := r + row;
    }
  }

  /** cartesian_product: element m is begins plus the m-th point of the widths. */
  method Cartesian(begins: Tuple, ends: Tuple) returns (r: seq<Tuple>)
    requires |begins| == |ends| && forall i :: 0 <= i < |begins| ==> begins[i] < ends[i]
    ensures var w := Widths(begins, ends);
            |r| == Prod(w) && forall m :: 0 <= m < |r| ==> r[m] == Plus(begins, PointAt(m, w))
  {
    r := Nested(begins, ends, []);
    ghost var w := Widths(begins, ends);
    assert w[0..] == w && begins[0..] == begins;
  }

  /** gvt::slice: the cartesian product of the fragment ranges, with the pinned slot a range of one. */
  method Slice(g: Gvt, dim: nat, no: nat) returns (r: Result<seq<Tuple>>)
    requires g.Valid() && dim < |g.cube|
    ensures no >= g.cube[dim] ==> r == OutOfRange
    ensures no < g.cube[dim] ==> r == Ok(PlaneFragments(g, dim, no))
  {
    if no >= g.cube[dim] {
      return OutOfRange;
    }
    GlobalToLocal(g.cube[dim], g.frag[dim], no);
    var pin := no / g.frag[dim];
    var begins := Zeros(|g.cube|)[dim := pin];
    var ends: Tuple := [];
    for i := 0 to |g.cube|
      invariant ends == g.Counts()[..i]
    {
      ends := ends + [g.FragmentCount(i)];
    }
    ends := ends[dim := pin + 1];
    CountsPositive(g);
    var fids := Cartesian(begins, ends);
    ghost var w := PlaneWidths(g, dim);
    assert w == Widths(begins, ends);
    forall m | 0 <= m < |fids|
      ensures fids[m] == PlaneFragment(g, dim, no, m)
    {
      OffsetSurjective(m, w);
      assert Plus(begins, PointAt(m, w)) == PointAt(m, w)[dim := pin];
    }
    assert fids == PlaneFragments(g, dim, no);
    r := Ok(fids);
  }

  lemma Two(y: nat, z: nat, b: nat, c: nat)
    ensures Offset([y, z], [b, c]) == y * c + z && Prod([b, c]) == b * c
  {
    assert [y, z][1..] == [z] && [b, c][1..] == [c];
    OneSlot(z, c);
  }

  lemma Three(x: nat, y: nat, z: nat, a: nat, b: nat, c: nat)
    ensures Offset([x, y, z], [a, b, c]) == (x * b + y) * c + z
    ensures Prod([a, b, c]) == (a * b) * c
  {
    assert [x, y, z][1..] == [y, z] && [a, b, c][1..] == [b, c];
    Two(y, z, b, c);
    SplitSum(x, b, y, c);
    MulAssoc(a, b, c);
  }

  lemma MulAssoc(a: nat, b: nat, c: nat)
    ensures a * (b * c) == (a * b) * c
  {}

  lemma Row3(x: nat, y: nat, z: nat, w: Tuple)
    requires |w| == 3 && Positive(w) && x <= w[0] && y <= w[1] && z <= w[2]
    ensures Offset([x, y, z], w) == (x * w[1] + y) * w[2] + z
    ensures Prod(w) == (w[0] * w[1]) * w[2]
    ensures x < w[0] && y < w[1] && z < w[2] ==>
              (x * w[1] + y) * w[2] + z < Prod(w) && PointAt((x * w[1] + y) * w[2] + z, w) == [x, y, z]
  {
    assert w == [w[0], w[1], w[2]];
    Three(x, y, z, w[0], w[1], w[2]);
    if x < w[0] && y < w[1] && z < w[2] {
      assert InShape([x, y, z], w);
      OffsetBound([x, y, z], w);
      PointOfOffset([x, y, z], w);
    }
  }
}
