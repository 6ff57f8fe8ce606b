/**
 * From the coordinates of a query to positions in the cube: the from_json
 * functions for queries in core/src/messages.cpp. Lines have labels, in
 * increasing order; a position is the index of a label.
 */
module Queries {
  import opened Geometry
  import opened Messages
  import opened CurtainPlan
  import opened Grouping
  import opened Plan

  predicate Sorted(labels: seq<int>) {
    forall i, j :: 0 <= i < j < |labels| ==> labels[i] < labels[j]
  }

  /** std::lower_bound: the first label that is not below x. */
  method LowerBound(labels: seq<int>, x: int) returns (k: nat)
    requires Sorted(labels)
    ensures k <= |labels|
    ensures forall i :: 0 <= i < k ==> labels[i] < x
    ensures forall i :: k <= i < |labels| ==> x <= labels[i]
  {
    var hi := |labels|;
    k := 0;
    while k < hi
      invariant 0 <= k <= hi <= |labels|
      invariant forall i :: 0 <= i < k ==> labels[i] < x
      invariant forall i :: hi <= i < |labels| ==> x <= labels[i]
    {
      var mid := k + (hi - k) / 2;
      if labels[mid] < x {
        k := mid + 1;
      } else {
        hi := mid;
      }
    }
  }

  datatype Position = At(index: nat) | NoSuchLine

  /** to_cartesian: found if and only if some line has the label, and then it is that line. */
  method ToCartesian(labels: seq<int>, x: int) returns (p: Position)
    requires Sorted(labels)
    ensures p.At? <==> x in labels
    ensures p.At? ==> p.index < |labels| && labels[p.index] == x
  {
    var k := LowerBound(labels, x);
    if k == |labels| || labels[k] != x {
      return NoSuchLine;
    }
    return At(k);
  }

  /** std::find: the first line with the label. */
  method FindLine(labels: seq<int>, x: int) returns (p: Position)
    ensures p.At? <==> x in labels
    ensures p.At? ==> p.index < |labels| && labels[p.index] == x && forall i :: 0 <= i < p.index ==> labels[i] != x
  {
    var i := 0;
    while i < |labels|
      invariant 0 <= i <= |labels| && forall j :: 0 <= j < i ==> labels[j] != x
    {
      if labels[i] == x {
        return At(i);
      }
      i := i + 1;
    }
    return NoSuchLine;
  }

  /*
   * Geographic coordinates
   */

  /** std::round: to the nearest integer, and away from zero when there are two. */
  function Round(v: real): (r: int)
    ensures r as real - 0.5 <= v <= r as real + 0.5
    ensures v == r as real + 0.5 ==> r < 0
    ensures v == r as real - 0.5 ==> r > 0
  {
    if v >= 0.0 then (v + 0.5).Floor else -((-v + 0.5).Floor)
  }

  function Distance(v: real, line: int): real {
    if v >= line as real then v - line as real else line as real - v
  }

  /** No label is nearer to v. */
  predicate Nearest(labels: seq<int>, v: real, i: nat) {
    i < |labels| && forall j :: 0 <= j < |labels| ==> Distance(v, labels[i]) <= Distance(v, labels[j])
  }

  /** The rounded value is between the first and the last label. */
  predicate InRange(labels: seq<int>, v: real) {
    |labels| > 0 && labels[0] <= Round(v) <= labels[|labels| - 1]
  }

  /**
   * indexof_nearest: accepted if and only if the rounded value is between the
   * first and the last label; then no label is nearer, not even when line
   * numbers are missing. Of two labels that are as near it is the larger, unless
   * v is negative and rounds to the smaller.
   */
  method IndexOfNearest(v: real, labels: seq<int>) returns (p: Position)
    requires Sorted(labels)
    ensures p.At? <==> InRange(labels, v)
    ensures p.At? ==> Nearest(labels, v, p.index)
    ensures p.At? && v >= 0.0 ==>
              forall j :: p.index < j < |labels| ==> Distance(v, labels[p.index]) < Distance(v, labels[j])
  {
    var lineno := Round(v);
    var k := LowerBound(labels, lineno);
    if k == |labels| || (k == 0 && labels[k] != lineno) {
      return NoSuchLine;
    }
    if k != 0 && Distance(v, labels[k]) > Distance(v, labels[k - 1]) {
      k := k - 1;
    }
    return At(k);
  }

  /** The affine matrix, from geographic coordinates to line numbers: rows (a, b, c) and (k, m, n). */
  datatype Affine = Affine(a: real, b: real, c: real, k: real, m: real, n: real) {
    function Inline(x: real, y: real): real {
      a * x + b * y + c
    }

    function Crossline(x: real, y: real): real {
      k * x + m * y + n
    }
  }

  /** What the matrix makes of (x, y, 1), written out. */
  lemma MatrixRows(affine: Affine, x: real, y: real)
    ensures affine.Inline(x, y) == affine.a * x + affine.b * y + affine.c
    ensures affine.Crossline(x, y) == affine.k * x + affine.m * y + affine.n
  {}

  /** utm_to_cartesian: the matrix times (x, y, 1), and the nearest lines. */
  method UtmToCartesian(inlines: seq<int>, crosslines: seq<int>, affine: Affine, x: real, y: real)
    returns (i: Position, j: Position)
    requires Sorted(inlines) && Sorted(crosslines)
    ensures affine.Inline(x, y) == affine.a * x + affine.b * y + affine.c
    ensures affine.Crossline(x, y) == affine.k * x + affine.m * y + affine.n
    ensures i.At? ==> Nearest(inlines, affine.Inline(x, y), i.index)
    ensures j.At? ==> Nearest(crosslines, affine.Crossline(x, y), j.index)
    ensures i.At? <==> InRange(inlines, affine.Inline(x, y))
    ensures j.At? <==> InRange(crosslines, affine.Crossline(x, y))
  {
    MatrixRows(affine, x, y);
    i := IndexOfNearest(affine.Inline(x, y), inlines);
    j := IndexOfNearest(affine.Crossline(x, y), crosslines);
  }

  /*
   * Slices
   */

  datatype Failure = NotFound | BadMessage | BadValue

  datatype Answer<+T> = Accepted(value: T) | Refused(failure: Failure)

  datatype SliceArgs = SliceArgs(dim: int, kind: string, val: int)

  /** An index is taken as it is; a line number is looked up. */
  method ResolveSlice(m: Manifest, attributes: seq<string>, args: SliceArgs) returns (r: Answer<SliceQuery>)
    requires ManifestValid(m)
    ensures r.Accepted? <==>
              && 0 <= args.dim < 3
              && (args.kind == "index" || args.kind == "lineno")
              && (args.kind == "index" ==> 0 <= args.val < |m.lineNumbers[args.dim]|)
              && (args.kind == "lineno" ==> args.val in m.lineNumbers[args.dim])
    ensures r == Refused(BadMessage) <==> 0 <= args.dim < 3 && args.kind != "index" && args.kind != "lineno"
    ensures r.Refused? ==> r.failure != BadValue
    ensures r.Accepted? ==>
              && r.value == SliceQuery(m, attributes, args.dim, r.value.idx)
              && r.value.idx < |m.lineNumbers[args.dim]|
              && (args.kind == "index" ==> r.value.idx == args.val)
              && (args.kind == "lineno" ==> m.lineNumbers[args.dim][r.value.idx] == args.val)
  {
    if !(0 <= args.dim < |m.lineNumbers|) {
      return Refused(NotFound);
    }
    var lines := m.lineNumbers[args.dim];
    if args.kind == "index" {
      if !(0 <= args.val < |lines|) {
        return Refused(NotFound);
      }
      return Accepted(SliceQuery(m, attributes, args.dim, args.val));
    } else if args.kind == "lineno" {
      var p := FindLine(lines, args.val);
      if p.NoSuchLine? {
        return Refused(NotFound);
      }
      return Accepted(SliceQuery(m, attributes, args.dim, p.index));
    }
    return Refused(BadMessage);
  }

  /*
   * Curtains
   */

  datatype Coords =
    | Indices(pairs: seq<seq<int>>)
    | Lines(pairs: seq<seq<int>>)
    | Places(points: seq<seq<real>>)
    | OtherKind

  /** Coordinate i of the query is the position p. */
  predicate Means(m: Manifest, affine: Option<Affine>, coords: Coords, i: nat, p: Point)
    requires ManifestValid(m)
  {
    var lines0, lines1 := m.lineNumbers[0], m.lineNumbers[1];
    p.0 < |lines0| && p.1 < |lines1| &&
    match coords
    case Indices(pairs) => i < |pairs| && pairs[i] == [p.0, p.1]
    case Lines(pairs) => i < |pairs| && pairs[i] == [lines0[p.0], lines1[p.1]]
    case Places(points) =>
      && i < |points| && |points[i]| == 2 && affine.Some?
      && Nearest(lines0, affine.value.Inline(points[i][0], points[i][1]), p.0)
      && Nearest(lines1, affine.value.Crossline(points[i][0], points[i][1]), p.1)
    case OtherKind => false
  }

  /** The positions of the first n coordinates. */
  predicate MeansAll(m: Manifest, affine: Option<Affine>, coords: Coords, n: nat, pts: seq<Point>)
    requires ManifestValid(m)
  {
    |pts| == n && forall i :: 0 <= i < n ==> Means(m, affine, coords, i, pts[i])
  }

  function Given(coords: Coords): nat {
    match coords
    case Indices(pairs) => |pairs|
    case Lines(pairs) => |pairs|
    case Places(points) => |points|
    case OtherKind => 0
  }

  /** Every index is one of a line. */
  predicate IndicesIn(m: Manifest, pairs: seq<seq<int>>)
    requires ManifestValid(m)
  {
    forall i :: 0 <= i < |pairs| ==>
      |pairs[i]| == 2 && 0 <= pairs[i][0] < |m.lineNumbers[0]| && 0 <= pairs[i][1] < |m.lineNumbers[1]|
  }

  /** Every line exists. */
  predicate LinesExist(m: Manifest, pairs: seq<seq<int>>)
    requires ManifestValid(m)
  {
    forall i :: 0 <= i < |pairs| ==>
      |pairs[i]| == 2 && pairs[i][0] in m.lineNumbers[0] && pairs[i][1] in m.lineNumbers[1]
  }

  method ResolveIndices(m: Manifest, pairs: seq<seq<int>>) returns (r: Answer<seq<Point>>)
    requires ManifestValid(m)
    ensures r.Accepted? ==> MeansAll(m, None, Indices(pairs), |pairs|, r.value)
    ensures r.Accepted? <==> IndicesIn(m, pairs)
    ensures r == Refused(BadValue) <==> exists i :: 0 <= i < |pairs| && |pairs[i]| != 2
    ensures r.Refused? ==> r.failure != BadMessage
  {
    for i := 0 to |pairs|
      invariant forall j :: 0 <= j < i ==> |pairs[j]| == 2
    {
      if |pairs[i]| != 2 {
        return Refused(BadValue);
      }
    }
    for i := 0 to |pairs|
      invariant forall j :: 0 <= j < i ==> 0 <= pairs[j][0] < |m.lineNumbers[0]|
    {
      if !(0 <= pairs[i][0] < |m.lineNumbers[0]|) {
        return Refused(NotFound);
      }
    }
    var pts: seq<Point> := [];
    for i := 0 to |pairs|
      invariant forall j :: 0 <= j < i ==> 0 <= pairs[j][1] < |m.lineNumbers[1]|
      invariant MeansAll(m, None, Indices(pairs), i, pts)
    {
      if !(0 <= pairs[i][1] < |m.lineNumbers[1]|) {
        return Refused(NotFound);
      }
      assert pairs[i] == [pairs[i][0], pairs[i][1]];
      pts := pts + [(pairs[i][0], pairs[i][1])];
    }
    return Accepted(pts);
  }

  method ResolveLines(m: Manifest, pairs: seq<seq<int>>) returns (r: Answer<seq<Point>>)
    requires ManifestValid(m) && Sorted(m.lineNumbers[0]) && Sorted(m.lineNumbers[1])
    ensures r.Accepted? ==> MeansAll(m, None, Lines(pairs), |pairs|, r.value)
    ensures r.Accepted? <==> LinesExist(m, pairs)
    ensures r == Refused(BadValue) ==> exists i :: 0 <= i < |pairs| && |pairs[i]| != 2
    ensures r.Refused? ==> r.failure != BadMessage
  {
    var pts: seq<Point> := [];
    for i := 0 to |pairs|
      invariant forall j :: 0 <= j < i ==>
                  |pairs[j]| == 2 && pairs[j][0] in m.lineNumbers[0] && pairs[j][1] in m.lineNumbers[1]
      invariant MeansAll(m, None, Lines(pairs), i, pts)
    {
      if |pairs[i]| != 2 {
        return Refused(BadValue);
      }
      var p := ToCartesian(m.lineNumbers[0], pairs[i][0]);
      if p.NoSuchLine? {
        return Refused(NotFound);
      }
      var q := ToCartesian(m.lineNumbers[1], pairs[i][1]);
      if q.NoSuchLine? {
        return Refused(NotFound);
      }
      assert pairs[i] == [pairs[i][0], pairs[i][1]];
      pts := pts + [(p.index, q.index)];
    }
    return Accepted(pts);
  }

  /** The place is in the cube: both of its rounded line numbers are between the first and the last label. */
  predicate InCube(m: Manifest, affine: Affine, x: real, y: real)
    requires ManifestValid(m)
  {
    && InRange(m.lineNumbers[0], affine.Inline(x, y))
    && InRange(m.lineNumbers[1], affine.Crossline(x, y))
  }

  predicate PlacesIn(m: Manifest, affine: Affine, points: seq<seq<real>>)
    requires ManifestValid(m)
  {
    forall i :: 0 <= i < |points| ==> |points[i]| == 2 && InCube(m, affine, points[i][0], points[i][1])
  }

  method ResolvePlaces(m: Manifest, affine: Affine, points: seq<seq<real>>) returns (r: Answer<seq<Point>>)
    requires ManifestValid(m) && Sorted(m.lineNumbers[0]) && Sorted(m.lineNumbers[1])
    ensures r.Accepted? ==> MeansAll(m, Some(affine), Places(points), |points|, r.value)
    ensures r.Accepted? <==> PlacesIn(m, affine, points)
    ensures r == Refused(BadValue) ==> exists i :: 0 <= i < |points| && |points[i]| != 2
    ensures r.Refused? ==> r.failure != BadMessage
  {
    var pts: seq<Point> := [];
    for i := 0 to |points|
      invariant forall j :: 0 <= j < i ==> |points[j]| == 2 && InCube(m, affine, points[j][0], points[j][1])
      invariant MeansAll(m, Some(affine), Places(points), i, pts)
    {
      if |points[i]| != 2 {
        return Refused(BadValue);
      }
      var p, q := UtmToCartesian(m.lineNumbers[0], m.lineNumbers[1], affine, points[i][0], points[i][1]);
      if p.NoSuchLine? || q.NoSuchLine? {
        return Refused(NotFound);
      }
      pts := pts + [(p.index, q.index)];
    }
    return Accepted(pts);
  }

  /** The coordinates are of a known kind, and all of them are in the cube. */
  predicate Resolvable(m: Manifest, affine: Option<Affine>, coords: Coords)
    requires ManifestValid(m)
  {
    match coords
    case Indices(pairs) => IndicesIn(m, pairs)
    case Lines(pairs) => LinesExist(m, pairs)
    case Places(points) => affine.Some? && PlacesIn(m, affine.value, points)
    case OtherKind => false
  }

  method ResolvePoints(m: Manifest, affine: Option<Affine>, coords: Coords) returns (r: Answer<seq<Point>>)
    requires ManifestValid(m)
    requires coords.Lines? || coords.Places? ==> Sorted(m.lineNumbers[0]) && Sorted(m.lineNumbers[1])
    ensures r.Accepted? <==> Resolvable(m, affine, coords)
    ensures r.Accepted? ==> MeansAll(m, affine, coords, Given(coords), r.value)
    ensures r.Accepted? && coords.Places? ==> |r.value| == |coords.points|
    ensures r.Accepted? && (coords.Indices? || coords.Lines?) ==> |r.value| == |coords.pairs|
    ensures r == Refused(BadMessage) <==> coords.OtherKind?
    ensures coords.Places? && affine.None? ==> r == Refused(NotFound)
  {
    match coords {
      case Indices(pairs) => r := ResolveIndices(m, pairs);
      case Lines(pairs) => r := ResolveLines(m, pairs);
      case Places(points) =>
        if affine.None? {
          return Refused(NotFound);
        }
        r := ResolvePlaces(m, affine.value, points);
      case OtherKind => return Refused(BadMessage);
    }
  }

  lemma MeaningInVolume(m: Manifest, affine: Option<Affine>, coords: Coords, pts: seq<Point>)
    requires ManifestValid(m) && MeansAll(m, affine, coords, |pts|, pts)
    ensures Curtain(DataVolume(m).Gvt()) && PointsIn(DataVolume(m).Gvt(), pts)
  {
    forall i | 0 <= i < |pts|
      ensures pts[i].0 < |m.lineNumbers[0]| && pts[i].1 < |m.lineNumbers[1]|
    {
      assert Means(m, affine, coords, i, pts[i]);
    }
  }

  /** The query has the positions of all coordinates, grouped by the fragments of the data. */
  method ResolveCurtain(m: Manifest, affine: Option<Affine>, attributes: seq<string>, coords: Coords)
    returns (r: Answer<CurtainQuery>, ghost pts: seq<Point>)
    requires ManifestValid(m)
    requires coords.Lines? || coords.Places? ==> Sorted(m.lineNumbers[0]) && Sorted(m.lineNumbers[1])
    ensures r.Accepted? <==> Resolvable(m, affine, coords)
    ensures r.Accepted? ==>
              && r.value.manifest == m && r.value.attributes == attributes
              && CurtainQueryValid(r.value.(attributes := []))
              && MeansAll(m, affine, coords, Given(coords), pts)
              && |r.value.dim0s| == |r.value.dim1s|
              && Curtain(DataVolume(m).Gvt()) && PointsOf(r.value) == Grouped(DataVolume(m).Gvt(), pts)
    ensures r == Refused(BadMessage) <==> coords.OtherKind?
  {
    var resolved := ResolvePoints(m, affine, coords);
    pts := [];
    if resolved.Refused? {
      return Refused(resolved.failure), pts;
    }
    pts := resolved.value;
    MeaningInVolume(m, affine, coords, pts);
    var g := DataVolume(m).Gvt();
    var dim0s := seq(|resolved.value|, i requires 0 <= i < |resolved.value| => resolved.value[i].0);
    var dim1s := seq(|resolved.value|, i requires 0 <= i < |resolved.value| => resolved.value[i].1);
    var query := new CurtainCoordinates(dim0s, dim1s);
    assert query.Points() == pts;
    query.GroupByFragmentInplace(g);
    var q := CurtainQuery(m, attributes, query.dim0s, query.dim1s);
    assert PointsOf(q) == query.Points();
    GroupedQueryValid(q, g, pts);
    return Accepted(q), pts;
  }

  lemma GroupedQueryValid(q: CurtainQuery, g: Gvt, pts: seq<Point>)
    requires ManifestValid(q.manifest) && g == DataVolume(q.manifest).Gvt() && Curtain(g) && PointsIn(g, pts)
    requires |q.dim0s| == |q.dim1s| && PointsOf(q) == Grouped(g, pts)
    ensures CurtainQueryValid(q.(attributes := []))
  {
    GroupedOrdered(g, pts);
    PermutedIn(g, Grouped(g, pts), pts);
    forall i | 0 <= i < |q.dim0s|
      ensures q.dim0s[i] < |q.manifest.lineNumbers[0]| && q.dim1s[i] < |q.manifest.lineNumbers[1]|
    {
      assert PointsOf(q)[i] == (q.dim0s[i], q.dim1s[i]);
    }
  }
}
