/**
 * The global volume translation of core/include/oneseismic/geometry.impl.hpp:
 * a cube of samples cut in equally shaped fragments, the last of which in
 * every dimension may be padded.
 */
module Geometry {
  import opened Arith
  import opened Shapes

  const INT_RANGE: int := 0x1_0000_0000
  const INT_MAX: int := 0x7FFF_FFFF
  const SIZE_RANGE: int := 0x1_0000_0000_0000_0000

  /** Conversion to a 32-bit signed int. */
  function ToInt(x: int): (r: int)
    ensures -INT_MAX - 1 <= r <= INT_MAX
    ensures -INT_MAX - 1 <= x <= INT_MAX ==> r == x
  {
    var m := x % INT_RANGE;
    if m <= INT_MAX then m else m - INT_RANGE
  }

  /** Conversion to a 64-bit size_t. */
  function ToSize(x: int): (r: nat)
    ensures r < SIZE_RANGE
    ensures 0 <= x < SIZE_RANGE ==> r == x
  {
    x % SIZE_RANGE
  }

  datatype Layout = Layout(iterations: nat, chunkSize: nat, initialSkip: nat, superstride: nat, substride: nat)

  /*
   * One dimension: n samples cut in pieces of f.
   */

  function Count(n: nat, f: nat): nat
    requires 0 < f
  {
    DivMod(n + (f - 1), f);
    (n + (f - 1)) / f
  }

  /** The number of padded samples in piece i. */
  function Pad(n: nat, f: nat, i: nat): (r: nat)
    requires 0 < f
    ensures r < f
  {
    if i != Count(n, f) - 1 || n % f == 0 then 0 else f - n % f
  }

  lemma CountIs(n: nat, f: nat)
    requires 0 < f
    ensures Count(n, f) == n / f + (if n % f == 0 then 0 else 1)
  {
    DivMod(n, f);
    if n % f == 0 {
      DivModUnique(n + (f - 1), f, n / f, f - 1);
    } else {
      MulDistrib(n / f, 1, f);
      DivModUnique(n + (f - 1), f, n / f + 1, n % f - 1);
    }
  }

  /** Without its padding, piece i is what is left of n, but no more than f. */
  lemma RealExtent(n: nat, f: nat, i: nat)
    requires 0 < f && i < Count(n, f)
    ensures f - Pad(n, f, i) == Min(f, n - i * f)
    ensures 0 < f - Pad(n, f, i) && i * f + (f - Pad(n, f, i)) <= n
    ensures i + 1 < Count(n, f) ==> Pad(n, f, i) == 0
  {
    CountIs(n, f);
    DivMod(n, f);
    if i + 1 < Count(n, f) {
      MulMono(i + 1, n / f, f);
      MulDistrib(i, 1, f);
    } else if n % f == 0 {
      MulDistrib(i, 1, f);
    }
  }

  lemma GlobalToLocal(n: nat, f: nat, x: nat)
    requires 0 < f && x < n
    ensures 0 <= x / f < Count(n, f) && 0 <= x % f < f - Pad(n, f, x / f)
    ensures (x / f) * f + x % f == x
  {
    CountIs(n, f);
    DivMod(x, f);
    DivMod(n, f);
    MulDistrib(n / f, 1, f);
    DivUpper(x, f, n / f + 1);
    if n % f == 0 {
      DivUpper(x, f, n / f);
    }
    RealExtent(n, f, x / f);
  }

  lemma LocalToGlobal(n: nat, f: nat, i: nat, l: nat)
    requires 0 < f && i < Count(n, f) && l < f - Pad(n, f, i)
    ensures 0 <= i * f + l < n && (i * f + l) / f == i && (i * f + l) % f == l
  {
    RealExtent(n, f, i);
    MulMono(0, i, f);
    DivModUnique(i * f + l, f, i, l);
  }

  datatype Gvt = Gvt(cube: Tuple, frag: Tuple) {

    predicate Valid() {
      |cube| == |frag| && Positive(cube) && Positive(frag)
    }

    function FragmentCount(d: nat): nat
      requires Valid() && d < |cube|
    {
      Count(cube[d], frag[d])
    }

    /** The shape of the grid of fragments. */
    function Counts(): (r: Tuple)
      requires Valid()
      ensures |r| == |cube|
    {
      seq(|cube|, d requires 0 <= d < |cube| => FragmentCount(d))
    }

    function Padding(fid: Tuple, d: nat): nat
      requires Valid() && |fid| == |cube| && d < |cube|
    {
      Pad(cube[d], frag[d], fid[d])
    }

    /** The shape of a fragment without its padding. */
    function RealShape(fid: Tuple): (r: Tuple)
      requires Valid() && |fid| == |cube|
      ensures |r| == |cube|
    {
      seq(|cube|, d requires 0 <= d < |cube| => frag[d] - Padding(fid, d))
    }

    function Local(p: Tuple): (r: Tuple)
      requires Valid() && |p| == |cube|
      ensures |r| == |cube|
    {
      seq(|cube|, d requires 0 <= d < |cube| => DivMod(p[d], frag[d]); p[d] % frag[d])
    }

    function FragId(p: Tuple): (r: Tuple)
      requires Valid() && |p| == |cube|
      ensures |r| == |cube|
    {
      seq(|cube|, d requires 0 <= d < |cube| => DivMod(p[d], frag[d]); p[d] / frag[d])
    }

    function Global(fid: Tuple, l: Tuple): (r: Tuple)
      requires |fid| == |l| == |frag|
      ensures |r| == |frag|
    {
      seq(|frag|, d requires 0 <= d < |frag| => fid[d] * frag[d] + l[d])
    }

    function SqueezeDim(d: nat): Gvt
      requires d < |cube| == |frag|
    {
      Gvt(Squeeze(cube, d), Squeeze(frag, d))
    }
  }

  /** to_global(frag_id(p), to_local(p)) is p, and the local point is never in the padding. */
  lemma PointRoundTrip(g: Gvt, p: Tuple)
    requires g.Valid() && InShape(p, g.cube)
    ensures InShape(g.FragId(p), g.Counts())
    ensures InShape(g.Local(p), g.RealShape(g.FragId(p)))
    ensures g.Global(g.FragId(p), g.Local(p)) == p
  {
    forall d | 0 <= d < |p|
      ensures g.FragId(p)[d] < g.Counts()[d]
      ensures g.Local(p)[d] < g.RealShape(g.FragId(p))[d]
      ensures g.Global(g.FragId(p), g.Local(p))[d] == p[d]
    {
      GlobalToLocal(g.cube[d], g.frag[d], p[d]);
    }
  }

  /**
   * In every direction, fragments lie side by side from zero on: a point is in
   * the fragment whose range has it, at its distance from where the range
   * starts, and there are as many fragments as it takes to reach the last point.
   */
  lemma SideBySide(g: Gvt, p: Tuple, d: nat)
    requires g.Valid() && InShape(p, g.cube) && d < |p|
    ensures g.FragId(p)[d] * g.frag[d] <= p[d] < g.FragId(p)[d] * g.frag[d] + g.frag[d]
    ensures g.Local(p)[d] == p[d] - g.FragId(p)[d] * g.frag[d]
    ensures (g.Counts()[d] - 1) * g.frag[d] < g.cube[d] <= g.Counts()[d] * g.frag[d]
  {
    DivMod(p[d], g.frag[d]);
    CountReaches(g.cube[d], g.frag[d]);
  }

  lemma CountReaches(n: nat, f: nat)
    requires 0 < f && 0 < n
    ensures (Count(n, f) - 1) * f < n <= Count(n, f) * f
  {
    CountIs(n, f);
    DivMod(n, f);
    MulDistrib(n / f, 1, f);
    MulDistrib(n / f, -1, f);
  }

  /** A fragment and an unpadded point in it come from exactly one cube point. */
  lemma FragmentRoundTrip(g: Gvt, fid: Tuple, l: Tuple)
    requires g.Valid() && InShape(fid, g.Counts()) && InShape(l, g.RealShape(fid))
    ensures InShape(g.Global(fid, l), g.cube)
    ensures g.FragId(g.Global(fid, l)) == fid
    ensures g.Local(g.Global(fid, l)) == l
  {
    var p := g.Global(fid, l);
    forall d | 0 <= d < |p|
      ensures p[d] < g.cube[d] && g.FragId(p)[d] == fid[d] && g.Local(p)[d] == l[d]
    {
      LocalToGlobal(g.cube[d], g.frag[d], fid[d], l[d]);
    }
  }

  lemma RealShapeBounds(g: Gvt, fid: Tuple)
    requires g.Valid() && InShape(fid, g.Counts())
    ensures Positive(g.RealShape(fid))
    ensures forall d :: 0 <= d < |g.cube| ==> g.RealShape(fid)[d] <= g.frag[d]
    ensures forall d :: 0 <= d < |g.cube| ==> g.RealShape(fid)[d] <= g.cube[d]
  {
    forall d | 0 <= d < |g.cube|
      ensures 0 < g.RealShape(fid)[d] <= g.cube[d]
    {
      RealExtent(g.cube[d], g.frag[d], fid[d]);
      MulMono(0, fid[d], g.frag[d]);
    }
  }

  lemma CountsPositive(g: Gvt)
    requires g.Valid()
    ensures Positive(g.Counts())
  {
    forall d | 0 <= d < |g.cube|
      ensures g.Counts()[d] > 0
    {
      GlobalToLocal(g.cube[d], g.frag[d], 0);
    }
  }

  lemma {:induction false} ProdMono(a: Tuple, b: Tuple)
    requires |a| == |b| && forall i :: 0 <= i < |a| ==> a[i] <= b[i]
    ensures Prod(a) <= Prod(b)
  {
    if |a| > 0 {
      ProdMono(a[1..], b[1..]);
      MulMono(a[0], b[0], Prod(a[1..]));
      MulMono(Prod(a[1..]), Prod(b[1..]), b[0]);
    }
  }

  /*
   * The volumes of all fragments, summed over the grid.
   */

  /** The sum over all fragments of the given shape of their unpadded volumes, one dimension at a time. */
  function GridVolume(cube: Tuple, frag: Tuple): nat
    requires |cube| == |frag| && Positive(frag)
    decreases |cube|, 0
  {
    if |cube| == 0 then 1 else Slabs(cube, frag, Count(cube[0], frag[0]))
  }

  /** The same for the fragments with a first index below n. */
  function Slabs(cube: Tuple, frag: Tuple, n: nat): nat
    requires |cube| == |frag| > 0 && Positive(frag)
    decreases |cube| - 1, 1, n
  {
    if n == 0 then 0 else
      Slabs(cube, frag, n - 1)
      + (frag[0] - Pad(cube[0], frag[0], n - 1)) * GridVolume(cube[1..], frag[1..])
  }

  lemma OneMoreSlab(n: nat, f: nat, i: nat)
    requires 0 < f && i < Count(n, f)
    ensures Min(i * f, n) + (f - Pad(n, f, i)) == Min((i + 1) * f, n)
  {
    RealExtent(n, f, i);
    MulDistrib(i, 1, f);
  }

  lemma {:induction false} SlabsVolume(cube: Tuple, frag: Tuple, n: nat)
    requires |cube| == |frag| > 0 && Positive(frag) && Positive(cube)
    requires n <= Count(cube[0], frag[0])
    ensures Slabs(cube, frag, n) == Min(n * frag[0], cube[0]) * GridVolume(cube[1..], frag[1..])
  {
    var v := GridVolume(cube[1..], frag[1..]);
    if n > 0 {
      SlabsVolume(cube, frag, n - 1);
      OneMoreSlab(cube[0], frag[0], n - 1);
      MulDistrib(Min((n - 1) * frag[0], cube[0]), frag[0] - Pad(cube[0], frag[0], n - 1), v);
    }
  }

  lemma {:induction false} GridVolumeIs(cube: Tuple, frag: Tuple)
    requires |cube| == |frag| && Positive(frag) && Positive(cube)
    ensures GridVolume(cube, frag) == Prod(cube)
  {
    if |cube| > 0 {
      var n := Count(cube[0], frag[0]);
      SlabsVolume(cube, frag, n);
      CountIs(cube[0], frag[0]);
      DivMod(cube[0], frag[0]);
      MulDistrib(cube[0] / frag[0], 1, frag[0]);
      assert Min(n * frag[0], cube[0]) == cube[0];
      GridVolumeIs(cube[1..], frag[1..]);
    }
  }

  /** The unpadded volumes of the first n fragments, in row-major order of their ids. */
  function FragmentVolumes(g: Gvt, n: nat): nat
    requires g.Valid()
  {
    if n == 0 then 0 else
      CountsPositive(g);
      FragmentVolumes(g, n - 1) + Prod(g.RealShape(PointAt(n - 1, g.Counts())))
  }

  function Tail(g: Gvt): (r: Gvt)
    requires g.Valid() && |g.cube| > 0
    ensures r.Valid() && r.Counts() == g.Counts()[1..]
  {
    Gvt(g.cube[1..], g.frag[1..])
  }

  /** The volume of fragment j of row i. */
  lemma VolumeInRow(g: Gvt, i: nat, j: nat, c: nat)
    requires g.Valid() && |g.cube| > 0 && c == Prod(g.Counts()[1..]) && j < c
    ensures Positive(g.Counts()) && Positive(Tail(g).Counts()) && 0 <= i * c + j
    ensures Prod(g.RealShape(PointAt(i * c + j, g.Counts())))
            == (g.frag[0] - Pad(g.cube[0], g.frag[0], i)) * Prod(Tail(g).RealShape(PointAt(j, Tail(g).Counts())))
  {
    CountsPositive(g);
    CountsPositive(Tail(g));
    MulMono(0, i, c);
    DivModUnique(i * c + j, c, i, j);
    var p, q := PointAt(i * c + j, g.Counts()), PointAt(j, Tail(g).Counts());
    assert p == [i] + q;
    assert g.RealShape(p)[1..] == Tail(g).RealShape(q);
  }

  /** The first j fragments of a row, from fragment at on, are as much as j fragments of the tail, times the extent. */
  ghost predicate RowSum(g: Gvt, at: nat, j: nat, extent: nat)
    requires g.Valid() && |g.cube| > 0
  {
    FragmentVolumes(g, at + j) == FragmentVolumes(g, at) + extent * FragmentVolumes(Tail(g), j)
  }

  lemma RowStep(g: Gvt, i: nat, j: nat, c: nat, at: nat, extent: nat)
    requires g.Valid() && |g.cube| > 0 && c == Prod(g.Counts()[1..]) && j < c && at == i * c
    requires extent == g.frag[0] - Pad(g.cube[0], g.frag[0], i) && RowSum(g, at, j, extent)
    ensures RowSum(g, at, j + 1, extent)
  {
    VolumeInRow(g, i, j, c);
    var more := Prod(Tail(g).RealShape(PointAt(j, Tail(g).Counts())));
    MulDistrib(FragmentVolumes(Tail(g), j), more, extent);
  }

  lemma RowNone(g: Gvt, at: nat, extent: nat)
    requires g.Valid() && |g.cube| > 0
    ensures RowSum(g, at, 0, extent)
  {
    assert extent * FragmentVolumes(Tail(g), 0) == 0;
  }

  lemma {:induction false} RowVolumes(g: Gvt, i: nat, j: nat, c: nat, at: nat, extent: nat)
    requires g.Valid() && |g.cube| > 0 && c == Prod(g.Counts()[1..]) && j <= c && at == i * c
    requires extent == g.frag[0] - Pad(g.cube[0], g.frag[0], i)
    ensures RowSum(g, at, j, extent)
  {
    if j == 0 {
      RowNone(g, at, extent);
    } else {
      RowVolumes(g, i, j - 1, c, at, extent);
      RowStep(g, i, j - 1, c, at, extent);
    }
  }

  lemma {:induction false} RowsVolumes(g: Gvt, n: nat, c: nat, at: nat)
    requires g.Valid() && |g.cube| > 0 && c == Prod(g.Counts()[1..]) && at == n * c
    requires FragmentVolumes(Tail(g), c) == GridVolume(g.cube[1..], g.frag[1..])
    ensures FragmentVolumes(g, at) == Slabs(g.cube, g.frag, n)
  {
    if n > 0 {
      MulDistrib(n - 1, 1, c);
      MulMono(0, n - 1, c);
      RowsVolumes(g, n - 1, c, at - c);
      RowVolumes(g, n - 1, c, c, at - c, g.frag[0] - Pad(g.cube[0], g.frag[0], n - 1));
    }
  }

  lemma {:induction false} VolumesByDimension(g: Gvt)
    requires g.Valid()
    ensures FragmentVolumes(g, Prod(g.Counts())) == GridVolume(g.cube, g.frag)
    decreases |g.cube|
  {
    if |g.cube| == 0 {
      CountsPositive(g);
      assert FragmentVolumes(g, 1) == FragmentVolumes(g, 0) + Prod(g.RealShape(PointAt(0, g.Counts())));
    } else {
      VolumesByDimension(Tail(g));
      RowsVolumes(g, g.Counts()[0], Prod(g.Counts()[1..]), Prod(g.Counts()));
    }
  }

  /** The unpadded volumes of all fragments sum to the volume of the cube. */
  lemma VolumesSum(g: Gvt)
    requires g.Valid()
    ensures FragmentVolumes(g, Prod(g.Counts())) == Prod(g.cube)
  {
    VolumesByDimension(g);
    GridVolumeIs(g.cube, g.frag);
  }
}
