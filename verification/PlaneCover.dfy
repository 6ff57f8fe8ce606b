/**
 * Injecting the tiles of all fragments of a two-dimensional geometry, with the
 * layouts of injection_stride, writes every cell of the plane exactly once.
 */
module PlaneCover {
  import opened Arith
  import opened Lists
  import opened Shapes
  import opened Geometry
  import opened Strides
  import opened Cells
  import opened Messages
  import opened Extraction

  predicate Plane(g: Gvt) {
    g.Valid() && |g.cube| == 2
  }

  /** The position in the plane of the local point (i, j) of a fragment. */
  function Cell(g: Gvt, fid: Tuple, i: nat, j: nat): nat
    requires Plane(g) && |fid| == 2
  {
    Offset(g.Global(fid, [i, j]), g.cube)
  }

  predicate Real(g: Gvt, fid: Tuple, i: nat, j: nat)
    requires Plane(g) && |fid| == 2
  {
    i < g.RealShape(fid)[0] && j < g.RealShape(fid)[1]
  }

  /** A tile with the injection layout of its fragment, and the plane's value at every unpadded point. */
  ghost predicate TileGood(t: Tile, g: Gvt, fid: Tuple, target: seq<Sample>)
    requires Plane(g) && InShape(fid, g.Counts())
  {
    var s := InjectionLayout(g, fid);
    && t == Tile(s.iterations, s.chunkSize, s.initialSkip, s.superstride, s.substride, t.v)
    && |t.v| == Prod(g.frag) && |target| == Prod(g.cube)
    && forall i: nat, j: nat | Real(g, fid, i, j) :: SampleGood(t, g, fid, target, i, j)
  }

  predicate SampleGood(t: Tile, g: Gvt, fid: Tuple, target: seq<Sample>, i: nat, j: nat)
    requires Plane(g) && |fid| == 2
  {
    && Offset([i, j], g.frag) < |t.v| && Cell(g, fid, i, j) < |target|
    && t.v[Offset([i, j], g.frag)] == target[Cell(g, fid, i, j)]
  }

  lemma Offset2(x: nat, y: nat, s: Tuple)
    requires |s| == 2
    ensures Offset([x, y], s) == x * s[1] + y
    ensures Prod(s) == s[0] * s[1]
  {
    assert [x, y][1..] == [y] && s[1..] == [s[1]];
    OneSlot(y, s[1]);
  }

  lemma RealPoint(g: Gvt, fid: Tuple, i: nat, j: nat)
    requires Plane(g) && InShape(fid, g.Counts()) && Real(g, fid, i, j)
    ensures InShape([i, j], g.RealShape(fid)) && InShape([i, j], g.frag)
    ensures InShape(g.Global(fid, [i, j]), g.cube)
    ensures Cell(g, fid, i, j) < Prod(g.cube)
  {
    RealShapeBounds(g, fid);
    FragmentRoundTrip(g, fid, [i, j]);
    OffsetBound(g.Global(fid, [i, j]), g.cube);
  }

  /** Different points have different cells, across all fragments. */
  lemma CellUnique(g: Gvt, f: Tuple, i: nat, j: nat, f': Tuple, i': nat, j': nat)
    requires Plane(g) && InShape(f, g.Counts()) && InShape(f', g.Counts())
    requires Real(g, f, i, j) && Real(g, f', i', j')
    ensures Cell(g, f, i, j) == Cell(g, f', i', j') ==> f == f' && i == i' && j == j'
  {
    RealPoint(g, f, i, j);
    RealPoint(g, f', i', j');
    if Cell(g, f, i, j) == Cell(g, f', i', j') {
      OffsetInjective(g.Global(f, [i, j]), g.Global(f', [i', j']), g.cube);
      FragmentRoundTrip(g, f, [i, j]);
      FragmentRoundTrip(g, f', [i', j']);
      assert [i, j] == [i', j'];
      assert [i, j][0] == [i', j'][0] && [i, j][1] == [i', j'][1];
    }
  }

  /** Every cell belongs to a point of a fragment. */
  lemma CellOfPoint(g: Gvt, x: nat) returns (fid: Tuple, i: nat, j: nat)
    requires Plane(g) && x < Prod(g.cube)
    ensures InShape(fid, g.Counts()) && Real(g, fid, i, j) && Cell(g, fid, i, j) == x
  {
    var p := PointAt(x, g.cube);
    OffsetSurjective(x, g.cube);
    PointRoundTrip(g, p);
    fid := g.FragId(p);
    i, j := g.Local(p)[0], g.Local(p)[1];
    assert g.Local(p) == [i, j];
  }

  /** Row i of a tile starts where the layout says: at the cell of (i, 0). */
  lemma RowStart(g: Gvt, fid: Tuple, i: nat, j: nat)
    requires Plane(g) && InShape(fid, g.Counts())
    ensures var s := InjectionLayout(g, fid);
            i * s.superstride + s.initialSkip + j == Cell(g, fid, i, j)
    ensures i * InjectionLayout(g, fid).substride + j == Offset([i, j], g.frag)
  {
    var x, y := fid[0] * g.frag[0], fid[1] * g.frag[1];
    assert Zeros(2) == [0, 0];
    assert g.Global(fid, [0, 0]) == [x, y] && g.Global(fid, [i, j]) == [x + i, y + j];
    Offset2(x, y, g.cube);
    Offset2(x + i, y + j, g.cube);
    Offset2(i, j, g.frag);
    MulDistrib(x, i, g.cube[1]);
  }

  lemma LayoutCounts(g: Gvt, fid: Tuple)
    requires Plane(g) && |fid| == 2
    ensures InjectionLayout(g, fid).iterations == g.RealShape(fid)[0]
    ensures InjectionLayout(g, fid).chunkSize == g.RealShape(fid)[1]
  {
    assert g.RealShape(fid)[..1] == [g.RealShape(fid)[0]];
    OneSlot(0, g.RealShape(fid)[0]);
  }

  /** What one write of a good tile writes. */
  lemma RowGood(t: Tile, g: Gvt, fid: Tuple, target: seq<Sample>, i: nat)
    requires Plane(g) && InShape(fid, g.Counts()) && TileGood(t, g, fid, target) && i < t.iterations
    ensures RowReads(t, i) && RowEnd(t, i) <= |target| && |RowWrites(t, i)| == g.RealShape(fid)[1]
    ensures forall j: nat :: j < |RowWrites(t, i)| ==>
              && Real(g, fid, i, j) && Cell(g, fid, i, j) < |target|
              && RowWrites(t, i)[j] == Write(Cell(g, fid, i, j), target[Cell(g, fid, i, j)])
  {
    LayoutCounts(g, fid);
    RealShapeBounds(g, fid);
    var w := g.RealShape(fid)[1];
    RealPoint(g, fid, i, w - 1);
    RowStart(g, fid, i, 0);
    RowStart(g, fid, i, w - 1);
    assert SampleGood(t, g, fid, target, i, w - 1);
    forall j: nat | j < w
      ensures Real(g, fid, i, j) && Cell(g, fid, i, j) < |target|
      ensures RowWrites(t, i)[j] == Write(Cell(g, fid, i, j), target[Cell(g, fid, i, j)])
    {
      RealPoint(g, fid, i, j);
      RowStart(g, fid, i, j);
      assert SampleGood(t, g, fid, target, i, j);
    }
  }

  /** A good tile fits, writes only its own cells, with the right values, none of them twice. */
  lemma TileOnce(t: Tile, g: Gvt, fid: Tuple, target: seq<Sample>)
    requires Plane(g) && InShape(fid, g.Counts()) && TileGood(t, g, fid, target)
    requires |target| <= INT_MAX && Prod(g.frag) <= INT_MAX
    ensures TileFits(t, |target|)
    ensures Right(TileWrites(t), target) && Once(TileWrites(t))
  {
    forall i | 0 <= i < t.iterations
      ensures RowReads(t, i) && RowEnd(t, i) <= |target| && RowInt(t, i)
    {
      RowGood(t, g, fid, target, i);
    }
    LayoutCounts(g, fid);
    var rows := Rows(t, t.iterations);
    forall i | 0 <= i < |rows|
      ensures Right(rows[i], target) && Once(rows[i])
    {
      RowGood(t, g, fid, target, i);
      forall j, j' | 0 <= j < j' < |rows[i]|
        ensures rows[i][j].at != rows[i][j'].at
      {
        CellUnique(g, fid, i, j, fid, i, j');
      }
    }
    forall i, i' | 0 <= i < i' < |rows|
      ensures Apart(rows[i], rows[i'])
    {
      RowGood(t, g, fid, target, i);
      RowGood(t, g, fid, target, i');
      forall j, j' | 0 <= j < |rows[i]| && 0 <= j' < |rows[i']|
        ensures rows[i][j].at != rows[i'][j'].at
      {
        CellUnique(g, fid, i, j, fid, i', j');
      }
    }
    FlattenRight(rows, target);
    FlattenOnce(rows);
  }

  lemma TileOwns(t: Tile, g: Gvt, fid: Tuple, target: seq<Sample>, k: nat) returns (i: nat, j: nat)
    requires Plane(g) && InShape(fid, g.Counts()) && TileGood(t, g, fid, target)
    requires TileReads(t) && k < |TileWrites(t)|
    ensures Real(g, fid, i, j) && TileWrites(t)[k].at == Cell(g, fid, i, j)
  {
    var rows := Rows(t, Max(0, t.iterations));
    FlattenMember(rows, TileWrites(t)[k]);
    i :| 0 <= i < |rows| && TileWrites(t)[k] in rows[i];
    RowGood(t, g, fid, target, i);
    j :| 0 <= j < |rows[i]| && rows[i][j] == TileWrites(t)[k];
  }

  lemma TileReaches(t: Tile, g: Gvt, fid: Tuple, target: seq<Sample>, i: nat, j: nat)
    requires Plane(g) && InShape(fid, g.Counts()) && TileGood(t, g, fid, target)
    requires TileReads(t) && Real(g, fid, i, j)
    ensures Written(TileWrites(t), Cell(g, fid, i, j))
  {
    LayoutCounts(g, fid);
    RowGood(t, g, fid, target, i);
    FlattenWritten(Rows(t, t.iterations), i, j);
  }

  /** The tiles of all fragments of the grid, each once, cover the plane exactly. */
  lemma PlaneCovered(g: Gvt, fids: seq<Tuple>, tiles: seq<Tile>, target: seq<Sample>)
    requires Plane(g) && |tiles| == |fids| && |target| == Prod(g.cube) <= INT_MAX && Prod(g.frag) <= INT_MAX
    requires forall f :: f in fids <==> InShape(f, g.Counts())
    requires forall m, n :: 0 <= m < n < |fids| ==> fids[m] != fids[n]
    requires forall m :: 0 <= m < |fids| ==> TileGood(tiles[m], g, fids[m], target)
    ensures TilesFit(tiles, |target|)
    ensures ExactCover(SliceWrites(tiles), target)
  {
    forall m | 0 <= m < |tiles|
      ensures TileFits(tiles[m], |target|)
      ensures Right(TileWrites(tiles[m]), target) && Once(TileWrites(tiles[m]))
    {
      TileOnce(tiles[m], g, fids[m], target);
    }
    var pieces := TilePieces(tiles);
    forall m, n | 0 <= m < n < |pieces|
      ensures Apart(pieces[m], pieces[n])
    {
      TilesApart(g, fids[m], fids[n], tiles[m], tiles[n], target);
    }
    FlattenRight(pieces, target);
    FlattenOnce(pieces);
    forall x: nat | x < |target|
      ensures Written(Flatten(pieces), x)
    {
      var fid, i, j := CellOfPoint(g, x);
      var m :| 0 <= m < |fids| && fids[m] == fid;
      TileReaches(tiles[m], g, fid, target, i, j);
      var k :| 0 <= k < |pieces[m]| && pieces[m][k].at == x;
      FlattenWritten(pieces, m, k);
    }
    CoverFromParts(Flatten(pieces), target);
  }

  lemma TilesApart(g: Gvt, f: Tuple, f': Tuple, t: Tile, t': Tile, target: seq<Sample>)
    requires Plane(g) && InShape(f, g.Counts()) && InShape(f', g.Counts()) && f != f'
    requires TileGood(t, g, f, target) && TileGood(t', g, f', target) && TileReads(t) && TileReads(t')
    ensures Apart(TileWrites(t), TileWrites(t'))
  {
    forall k, k' | 0 <= k < |TileWrites(t)| && 0 <= k' < |TileWrites(t')|
      ensures TileWrites(t)[k].at != TileWrites(t')[k'].at
    {
      var i, j := TileOwns(t, g, f, target, k);
      var i', j' := TileOwns(t', g, f', target, k');
      CellUnique(g, f, i, j, f', i', j');
    }
  }
}
