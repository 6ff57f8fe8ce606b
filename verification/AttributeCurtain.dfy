/**
 * Curtains of attributes. The points of a query are grouped by the fragments
 * of the data, and the tasks of an attribute use tiles of another shape. An
 * attribute's traces arrive in the right rows exactly when the points also
 * happen to be grouped by the attribute's tiles.
 */
module AttributeCurtain {
  import opened Arith
  import opened Lists
  import opened Shapes
  import opened Geometry
  import opened Cells
  import opened Messages
  import opened Stream
  import opened Plan
  import opened CurtainPlan
  import opened Grouping
  import opened CurtainWorker
  import opened CurtainQuery
  import opened CurtainCover
  import opened Assembly
  import opened CurtainEndToEnd

  /*
   * A row that is never delivered
   */

  type Keys = seq<(nat, nat)>

  /** The column of every row. */
  function KeysOf(g: Gvt, pts: seq<Point>): (r: Keys)
    requires Curtain(g)
    ensures |r| == |pts| && forall i :: 0 <= i < |pts| ==> r[i] == Key(g, pts[i])
  {
    seq(|pts|, i requires 0 <= i < |pts| => Key(g, pts[i]))
  }

  /** Rows i and r are in the same column, and row j, between them, is not. */
  predicate Separated(keys: Keys, i: nat, j: nat, r: nat) {
    i < j < r < |keys| && keys[i] == keys[r] && keys[j] != keys[i]
  }

  ghost predicate Stray(keys: Keys, r: nat) {
    exists i: nat, j: nat :: Separated(keys, i, j, r)
  }

  ghost predicate LastStray(keys: Keys, r: nat) {
    Stray(keys, r) && forall k :: r < k < |keys| ==> !Stray(keys, k)
  }

  lemma SomeStray(g: Gvt, pts: seq<Point>) returns (r: nat)
    requires Curtain(g) && !Contiguous(g, pts)
    ensures r < |pts| && Stray(KeysOf(g, pts), r)
  {
    var i, j, k :| 0 <= i < j < k < |pts| && Key(g, pts[i]) == Key(g, pts[k]) && Key(g, pts[j]) != Key(g, pts[i]);
    assert Separated(KeysOf(g, pts), i, j, k);
    r := k;
  }

  lemma FindLast(keys: Keys, some: nat) returns (r: nat)
    requires some < |keys| && Stray(keys, some)
    ensures r < |keys| && LastStray(keys, r)
  {
    r := |keys| - 1;
    while !Stray(keys, r)
      decreases r
      invariant some <= r < |keys|
      invariant forall s :: r < s < |keys| ==> !Stray(keys, s)
    {
      r := r - 1;
    }
  }

  /** A strictly increasing list that leaves out a number between its ends. */
  lemma {:induction false} Gap(rows: seq<nat>, j: nat, m: nat)
    requires m < |rows| && forall a, b :: 0 <= a < b < |rows| ==> rows[a] < rows[b]
    requires rows[0] < j < rows[m] && j !in rows
    ensures rows[0] + m + 1 <= rows[m]
  {
    if m > 0 {
      if rows[m - 1] > j {
        Gap(rows, j, m - 1);
      } else {
        assert rows[m - 1] in rows;
        Increasing(rows, m - 1);
      }
    }
  }

  /** The rows of a column, in order. */
  ghost predicate RowsAre(keys: Keys, key: (nat, nat), rows: seq<nat>) {
    && (forall a, b :: 0 <= a < b < |rows| ==> rows[a] < rows[b])
    && (forall a :: 0 <= a < |rows| ==> rows[a] < |keys| && keys[rows[a]] == key)
    && (forall i :: 0 <= i < |keys| && keys[i] == key ==> i in rows)
  }

  /** As many rows as a column has, from its first row on, never include the last stray row. */
  lemma RunAvoids(keys: Keys, key: (nat, nat), rows: seq<nat>, r: nat)
    requires RowsAre(keys, key, rows) && |rows| > 0 && LastStray(keys, r)
    ensures !(rows[0] <= r < rows[0] + |rows|)
  {
    var last := rows[|rows| - 1];
    Increasing(rows, |rows| - 1);
    if rows[0] <= r < rows[0] + |rows| {
      var i: nat, j: nat :| Separated(keys, i, j, r);
      if last > r {
        if keys[r] == key {
          assert Separated(keys, i, j, last);
        } else {
          assert Separated(keys, rows[0], r, last);
        }
        assert Stray(keys, last);
        assert false;
      }
      assert last == r;
      assert i in rows && keys[j] != key;
      assert j !in rows;
      Gap(rows, j, |rows| - 1);
    }
  }

  /** No fragment of a planned task delivers the last stray row. */
  lemma FragmentSkips(task: CurtainTask, pts: seq<Point>, cols: seq<Column>, r: nat, k: nat)
    requires CurtainCover.Planned(task, pts, cols) && LastStray(KeysOf(task.volume.Gvt(), pts), r)
    requires k < |task.ids|
    ensures !(task.ids[k].offset <= r < task.ids[k].offset + |task.ids[k].coordinates|)
  {
    var g := task.volume.Gvt();
    GlobalToLocal(g.cube[2], g.frag[2], 0);
    var c, z := ExpandPosition(cols, g.FragmentCount(2), k);
    ColumnFacts(g, pts, cols, c);
    RowsOfAre(g, pts, cols[c]);
    RunAvoids(KeysOf(g, pts), cols[c].key, RowsOf(g, pts, cols[c]), r);
  }

  lemma RowsOfAre(g: Gvt, pts: seq<Point>, col: Column)
    requires Curtain(g)
    ensures RowsAre(KeysOf(g, pts), col.key, RowsOf(g, pts, col))
  {}

  lemma FragmentAvoids(g: Gvt, s: Single, chunk: seq<Sample>, r: nat)
    requires Curtain(g) && SingleValid(g, s) && |chunk| == Prod(g.frag)
    requires !(s.offset <= r < s.offset + |s.coordinates|)
    ensures !Written(SinglePiece(g, s, chunk), Out(g, r, 0))
  {
    forall i: nat | i < |SinglePiece(g, s, chunk)|
      ensures SinglePiece(g, s, chunk)[i].at != Out(g, r, 0)
    {
      var m, j := PieceOwns(g, s, chunk, i);
      DepthIn(g, s, j);
      SameCell(g, s.offset + m, DepthOf(g, s, j), r, 0);
    }
  }

  lemma FlattenUnwritten(pieces: seq<seq<Write>>, x: nat)
    requires forall k :: 0 <= k < |pieces| ==> !Written(pieces[k], x)
    ensures !Written(Flatten(pieces), x)
  {
    forall i | 0 <= i < |Flatten(pieces)|
      ensures Flatten(pieces)[i].at != x
    {
      var w := Flatten(pieces)[i];
      FlattenMember(pieces, w);
      var k :| 0 <= k < |pieces| && w in pieces[k];
      assert w.at != x;
    }
  }

  lemma NeverWritten(task: CurtainTask, pts: seq<Point>, cols: seq<Column>, store: Store, r: nat)
    requires CurtainCover.Planned(task, pts, cols) && TaskValid(task) && CurtainWorker.Stored(task, store)
    requires LastStray(KeysOf(task.volume.Gvt(), pts), r)
    ensures !Written(Flatten(SinglePieces(task, store)), Out(task.volume.Gvt(), r, 0))
  {
    var g, pieces := task.volume.Gvt(), SinglePieces(task, store);
    forall k | 0 <= k < |pieces|
      ensures !Written(pieces[k], Out(g, r, 0))
    {
      FragmentSkips(task, pts, cols, r, k);
      FragmentAvoids(g, task.ids[k], store[task.ids[k].id], r);
    }
    FlattenUnwritten(pieces, Out(g, r, 0));
  }

  /*
   * If and only if
   */

  /** A cube in which no sample is zero, so that a cell left as allocated can be told from a sample. */
  ghost predicate NoZeros(g: Gvt, cube: Cube) {
    forall p | InShape(p, g.cube) :: cube(p) != 0
  }

  lemma WrittenPermutation(a: seq<Write>, b: seq<Write>, x: nat)
    requires Permutation(a, b) && Written(a, x)
    ensures Written(b, x)
  {
    var k :| 0 <= k < |a| && a[k].at == x;
    assert a[k] in multiset(a);
    assert a[k] in b;
  }

  /** Writes that leave the last stray row alone do not assemble the traces. */
  lemma StaysZero(g: Gvt, pts: seq<Point>, cube: Cube, r: nat, buf: seq<Sample>, ws: seq<Write>)
    requires Curtain(g) && PointsIn(g, pts) && r < |pts| && NoZeros(g, cube)
    requires 0 <= |pts| * g.cube[2] && buf == ZeroSamples(|pts| * g.cube[2])
    requires InBounds(ws, |buf|) && !Written(ws, Out(g, r, 0))
    ensures Apply(buf, ws) != CurtainTarget(g, pts, cube)
  {
    TargetAt(g, pts, cube, r, 0);
    ApplyFrame(buf, ws, Out(g, r, 0));
    assert InShape([pts[r].0, pts[r].1, 0], g.cube);
  }

  /**
   * For every order of arrival: the buffer of a recorded attribute holds the
   * requested traces if and only if the points are contiguous per tile.
   */
  lemma RightIffContiguous(
    q: Plan.CurtainQuery, planned: seq<CurtainTask>, cols: seq<seq<Column>>, taskSize: nat, cubes: string -> Cube,
    stores: string -> Store, arrived: seq<Object>, i: nat)
    requires Ready(q, planned, cols, cubes, stores) && taskSize > 0 && i < |planned|
    requires Permutation(arrived, Bundles(planned, taskSize, stores))
    requires NoZeros(planned[i].volume.Gvt(), cubes(planned[i].volume.attribute))
    ensures AllocatedFor(CurtainHeader(q, |arrived|)).Some? && Curtain(planned[i].volume.Gvt())
    ensures var e := ExtractAll(CurtainFunction, arrived, AllocatedFor(CurtainHeader(q, |arrived|)).value);
            && e.Wrote?
            && (Delivered(planned[i].volume, PointsOf(q), cubes, e.writers)
                <==> Contiguous(planned[i].volume.Gvt(), PointsOf(q)))
  {
    PlannedTask(q, planned, cols, cubes, stores, i);
    ArrivedAccepted(q, planned, cols, taskSize, cubes, stores, arrived);
    var bundles, w := Bundles(planned, taskSize, stores), AllocatedFor(CurtainHeader(q, |arrived|)).value;
    ExtractAllApplies(CurtainFunction, arrived, w);
    var g, a, pts := planned[i].volume.Gvt(), planned[i].volume.attribute, PointsOf(q);
    assert AllottedFor(planned[i].volume, |q.dim0s|, w);
    SameWrites(a, arrived, bundles);
    if Contiguous(g, pts) {
      BundlesCover(q, planned, cols, taskSize, cubes, stores, i);
      ExactCoverApplied(w[a], AllWritesFor(a, arrived), CurtainTarget(g, pts, cubes(a)));
    } else {
      BundlesWrite(q, planned, cols, taskSize, cubes, stores, i);
      var some := SomeStray(g, pts);
      var r := FindLast(KeysOf(g, pts), some);
      NeverWritten(planned[i], pts, cols[i], stores(a), r);
      if Written(AllWritesFor(a, arrived), Out(g, r, 0)) {
        WrittenPermutation(AllWritesFor(a, arrived), AllWritesFor(a, bundles), Out(g, r, 0));
      }
      StaysZero(g, pts, cubes(a), r, w[a], AllWritesFor(a, arrived));
    }
  }

  /*
   * When it is guaranteed
   */

  /** Tiles that are some fragments wide, and as broad as the survey, keep what is grouped by fragment together. */
  lemma GroupedForTiles(data: Gvt, tiles: Gvt, pts: seq<Point>, m: nat)
    requires Curtain(data) && Curtain(tiles) && m > 0 && PointsIn(tiles, pts)
    requires tiles.frag[0] == m * data.frag[0] && tiles.cube[1] <= tiles.frag[1]
    ensures Contiguous(tiles, Grouped(data, pts))
  {
    GroupedOrdered(data, pts);
    var s := Grouped(data, pts);
    PermutedIn(tiles, s, pts);
    forall i, j | 0 <= i < j < |s|
      ensures Key(tiles, s[i]).0 <= Key(tiles, s[j]).0 && Key(tiles, s[i]).1 == Key(tiles, s[j]).1
    {
      TileOrder(data, tiles, s[i], s[j], m);
    }
  }

  lemma TileOrder(data: Gvt, tiles: Gvt, a: Point, b: Point, m: nat)
    requires Curtain(data) && Curtain(tiles) && m > 0 && GroupLeq(data, a, b)
    requires tiles.frag[0] == m * data.frag[0] && tiles.cube[1] <= tiles.frag[1]
    requires a.1 < tiles.cube[1] && b.1 < tiles.cube[1]
    ensures Key(tiles, a).0 <= Key(tiles, b).0 && Key(tiles, a).1 == Key(tiles, b).1 == 0
  {
    DivModUnique(a.1, tiles.frag[1], 0, a.1);
    DivModUnique(b.1, tiles.frag[1], 0, b.1);
    DivTwice(a.0, data.frag[0], m);
    DivTwice(b.0, data.frag[0], m);
    DivMono(a.0 / data.frag[0], b.0 / data.frag[0], m);
  }

  /** x / (m * f) == (x / f) / m */
  lemma DivTwice(x: nat, f: nat, m: nat)
    requires f > 0 && m > 0
    ensures m * f > 0 && x / f >= 0 && x / (m * f) == (x / f) / m
  {
    MulMono(1, m, f);
    DivMod(x, f);
    var y, l := x / f, x % f;
    DivMod(y, m);
    var q, r := y / m, y % m;
    MulDistrib(q * m, r, f);
    assert (q * m) * f == q * (m * f);
    MulMono(r + 1, m, f);
    MulDistrib(r, 1, f);
    DivModUnique(x, m * f, q, r * f + l);
  }

  lemma DivMono(a: nat, b: nat, m: nat)
    requires a <= b && m > 0
    ensures a / m <= b / m
  {
    DivMod(a, m);
    DivMod(b, m);
    if a / m > b / m {
      MulMono(b / m + 1, a / m, m);
      MulDistrib(b / m, 1, m);
    }
  }

  /*
   * When it is not
   */

  /** Fragments of 64 samples a side, and tiles of 512 by 512: the tiles of the grouped points are A, B, A. */
  lemma TilesInterleave()
    ensures var data, tiles := Gvt([1024, 1024, 64], [64, 64, 64]), Gvt([1024, 1024, 1], [512, 512, 1]);
            var pts := [(0, 0), (0, 600), (64, 0)];
            && Curtain(data) && Curtain(tiles) && PointsIn(data, pts) && Grouped(data, pts) == pts
            && !Contiguous(tiles, pts)
  {
    var data, tiles := Gvt([1024, 1024, 64], [64, 64, 64]), Gvt([1024, 1024, 1], [512, 512, 1]);
    var a, b, c := (0, 0), (0, 600), (64, 0);
    var pts := [a, b, c];
    assert Key(data, a) == (0, 0) && Key(data, b) == (0, 9) && Key(data, c) == (1, 0);
    assert Key(tiles, a) == (0, 0) && Key(tiles, b) == (0, 1) && Key(tiles, c) == (0, 0);
    FragmentLessIs(data, a, b);
    FragmentLessIs(data, b, c);
    FragmentLessIs(data, b, a);
    FragmentLessIs(data, c, b);
    SortThree(PairLess, a, b, c);
    SortThree((x, y) => Curtain(data) && FragmentLess(data, x, y), a, b, c);
    assert Key(tiles, pts[0]) == Key(tiles, pts[2]) && Key(tiles, pts[1]) != Key(tiles, pts[0]);
  }

  lemma SortThree(less: (Point, Point) -> bool, a: Point, b: Point, c: Point)
    requires !less(b, a) && !less(c, b)
    ensures SortBy(less, [a, b, c]) == [a, b, c]
  {
    assert [c][1..] == [] && [b, c][1..] == [c] && [a, b, c][1..] == [b, c];
    assert SortBy(less, [c]) == [c];
    assert SortBy(less, [b, c]) == [b, c];
  }

  function Lines(n: nat): (r: seq<int>)
    ensures |r| == n
  {
    seq(n, i => i)
  }

  /** A query for those points in a survey of 1024 by 1024 lines, with an attribute in tiles of 512 by 512. */
  function Interleaved(): Plan.CurtainQuery {
    Plan.CurtainQuery(
      Manifest([64, 64, 64], [Attribute("cdpx", [512, 512, 1])], [Lines(1024), Lines(1024), Lines(64)]),
      ["cdpx"], [0, 0, 64], [0, 600, 0])
  }

  lemma InterleavedIs()
    ensures CurtainQueryValid(Interleaved()) && PointsOf(Interleaved()) == [(0, 0), (0, 600), (64, 0)]
    ensures Volumes(Interleaved().manifest, Interleaved().attributes, 1)
            == [Volume("data", [64, 64, 64], [1024, 1024, 64]), Volume("cdpx", [512, 512, 1], [1024, 1024, 1])]
  {
    var q := Interleaved();
    var a := Attribute("cdpx", [512, 512, 1]);
    assert Lookup(q.manifest.attributes, "cdpx", 0) == Some(a);
    assert CubeShape(q.manifest) == [1024, 1024, 64] && CubeShape(q.manifest)[2 := 1] == [1024, 1024, 1];
    assert Volumes(q.manifest, q.attributes, 0) == [DataVolume(q.manifest)];
  }

  /**
   * A query that is grouped as the planner groups its points, and an attribute
   * that does not arrive: in every order of the bundles, and for every task
   * size, all of them are extracted, and the traces are not the requested ones.
   */
  lemma NotForAllTiles(
    planned: seq<CurtainTask>, cols: seq<seq<Column>>, taskSize: nat, cubes: string -> Cube, stores: string -> Store,
    arrived: seq<Object>)
    requires Ready(Interleaved(), planned, cols, cubes, stores) && taskSize > 0
    requires Permutation(arrived, Bundles(planned, taskSize, stores))
    requires NoZeros(Gvt([1024, 1024, 1], [512, 512, 1]), cubes("cdpx"))
    ensures CurtainQueryValid(Interleaved()) && |planned| == 2 && planned[1].volume.attribute == "cdpx"
    ensures var g := DataVolume(Interleaved().manifest).Gvt();
            Curtain(g) && Grouped(g, PointsOf(Interleaved())) == PointsOf(Interleaved())
    ensures AllocatedFor(CurtainHeader(Interleaved(), |arrived|)).Some?
    ensures var e := ExtractAll(CurtainFunction, arrived, AllocatedFor(CurtainHeader(Interleaved(), |arrived|)).value);
            e.Wrote? && !Delivered(planned[1].volume, PointsOf(Interleaved()), cubes, e.writers)
  {
    InterleavedIs();
    TilesInterleave();
    assert IsCurtainTask(planned[1], Volume("cdpx", [512, 512, 1], [1024, 1024, 1]), PointsOf(Interleaved()), cols[1]);
    RightIffContiguous(Interleaved(), planned, cols, taskSize, cubes, stores, arrived, 1);
  }
}
