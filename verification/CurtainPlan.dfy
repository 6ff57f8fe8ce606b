/**
 * Planning a curtain (core/src/plan.cpp): the points are expanded to all the
 * fragments of their columns, in a map that is a sorted vector.
 */
module CurtainPlan {
  import opened Arith
  import opened Shapes
  import opened Geometry
  import opened Strides
  import opened Messages

  type Point = (nat, nat)

  predicate Curtain(g: Gvt) {
    g.Valid() && |g.cube| == 3
  }

  predicate PointsIn(g: Gvt, pts: seq<Point>)
    requires Curtain(g)
  {
    forall r :: 0 <= r < |pts| ==> pts[r].0 < g.cube[0] && pts[r].1 < g.cube[1]
  }

  /** top_cubepoint */
  function Top(p: Point): Tuple {
    [p.0, p.1, 0]
  }

  /** The column of fragments a point is in. */
  function Key(g: Gvt, p: Point): (nat, nat)
    requires Curtain(g)
  {
    DivMod(p.0, g.frag[0]);
    DivMod(p.1, g.frag[1]);
    (p.0 / g.frag[0], p.1 / g.frag[1])
  }

  /** The position of a point in the fragments of its column. */
  function Lateral(g: Gvt, p: Point): (nat, nat)
    requires Curtain(g)
  {
    DivMod(p.0, g.frag[0]);
    DivMod(p.1, g.frag[1]);
    (p.0 % g.frag[0], p.1 % g.frag[1])
  }

  lemma TopIs(g: Gvt, p: Point)
    requires Curtain(g) && p.0 < g.cube[0] && p.1 < g.cube[1]
    ensures InShape(Top(p), g.cube)
    ensures g.FragId(Top(p)) == [Key(g, p).0, Key(g, p).1, 0]
    ensures g.Local(Top(p)) == [Lateral(g, p).0, Lateral(g, p).1, 0]
  {
    DivModUnique(0, g.frag[2], 0, 0);
  }

  /** Pairs of lines and pairs of fragment numbers compare lexicographically. */
  predicate PairLess(a: (nat, nat), b: (nat, nat)) {
    a.0 < b.0 || (a.0 == b.0 && a.1 < b.1)
  }

  /** Fragment ids compare lexicographically. */
  predicate IdLess(a: Tuple, b: Tuple)
    requires |a| == |b| == 3
  {
    a[0] < b[0] || (a[0] == b[0] && (a[1] < b[1] || (a[1] == b[1] && a[2] < b[2])))
  }

  predicate SortedIds(ids: seq<Single>) {
    && (forall k :: 0 <= k < |ids| ==> |ids[k].id| == 3)
    && (forall k, l :: 0 <= k < l < |ids| ==> IdLess(ids[k].id, ids[l].id))
  }

  /** The rows of the curtain, below n, that are in a column, in order. */
  function Rows(g: Gvt, pts: seq<Point>, key: (nat, nat), n: nat): (r: seq<nat>)
    requires Curtain(g) && n <= |pts|
    ensures forall m :: 0 <= m < |r| ==> r[m] < n && Key(g, pts[r[m]]) == key
    ensures forall m, m' :: 0 <= m < m' < |r| ==> r[m] < r[m']
    ensures forall i :: 0 <= i < n && Key(g, pts[i]) == key ==> i in r
  {
    if n == 0 then [] else
      Rows(g, pts, key, n - 1) + (if Key(g, pts[n - 1]) == key then [n - 1] else [])
  }

  datatype Column = Column(key: (nat, nat), offset: nat, coordinates: seq<(nat, nat)>)

  /** A column with all its points: the first row that is in it, and where each of its rows is. */
  function ColumnOf(g: Gvt, pts: seq<Point>, key: (nat, nat), n: nat): Column
    requires Curtain(g) && n <= |pts|
  {
    var rows := Rows(g, pts, key, n);
    Column(key, if |rows| == 0 then 0 else rows[0], Laterals(g, pts, rows))
  }

  ghost predicate SortedKeys(cols: seq<Column>) {
    forall a, b :: 0 <= a < b < |cols| ==> PairLess(cols[a].key, cols[b].key)
  }

  ghost predicate IsColumn(g: Gvt, pts: seq<Point>, n: nat, col: Column)
    requires Curtain(g) && n <= |pts|
  {
    |Rows(g, pts, col.key, n)| > 0 && col == ColumnOf(g, pts, col.key, n)
  }

  /** The columns of the first n points: sorted, complete, and nothing else. */
  ghost predicate IsColumns(g: Gvt, pts: seq<Point>, n: nat, cols: seq<Column>)
    requires Curtain(g) && n <= |pts|
  {
    && SortedKeys(cols)
    && (forall c :: 0 <= c < |cols| ==> IsColumn(g, pts, n, cols[c]))
    && (forall r :: 0 <= r < n ==> HasColumn(cols, Key(g, pts[r])))
  }

  ghost predicate HasColumn(cols: seq<Column>, key: (nat, nat)) {
    exists c :: 0 <= c < |cols| && cols[c].key == key
  }

  /** The fragments of a column, top to bottom. */
  function Block(col: Column, h: nat): (r: seq<Single>)
    ensures |r| == h
  {
    seq(h, z requires 0 <= z => Single([col.key.0, col.key.1, z], col.offset, col.coordinates))
  }

  /** Columns expanded to fragments. */
  function Expand(cols: seq<Column>, h: nat): seq<Single> {
    if |cols| == 0 then [] else Block(cols[0], h) + Expand(cols[1..], h)
  }

  lemma {:induction false} ExpandConcat(a: seq<Column>, b: seq<Column>, h: nat)
    ensures Expand(a + b, h) == Expand(a, h) + Expand(b, h)
  {
    if |a| == 0 {
      assert a + b == b;
    } else {
      assert (a + b)[1..] == a[1..] + b;
      ExpandConcat(a[1..], b, h);
    }
  }

  lemma {:induction false} ExpandLength(cols: seq<Column>, h: nat)
    ensures |Expand(cols, h)| == |cols| * h
  {
    if |cols| > 0 {
      ExpandLength(cols[1..], h);
      MulDistrib(|cols| - 1, 1, h);
    }
  }

  lemma ExpandSingle(col: Column, h: nat)
    ensures Expand([col], h) == Block(col, h)
  {
    assert [col][1..] == [];
  }

  /** What is before, at and after column c. */
  lemma ExpandAround(cols: seq<Column>, h: nat, c: nat)
    requires c < |cols|
    ensures Expand(cols, h) == Expand(cols[..c], h) + Block(cols[c], h) + Expand(cols[c + 1..], h)
    ensures |Expand(cols[..c], h)| == c * h
  {
    var a, x, b := cols[..c], [cols[c]], cols[c + 1..];
    assert cols == a + x + b;
    ExpandConcat(a + x, b, h);
    ExpandConcat(a, x, h);
    ExpandSingle(cols[c], h);
    ExpandLength(a, h);
  }

  lemma ExpandBetween(cols: seq<Column>, h: nat, c: nat)
    requires c <= |cols|
    ensures Expand(cols, h) == Expand(cols[..c], h) + Expand(cols[c..], h)
    ensures |Expand(cols[..c], h)| == c * h
  {
    assert cols == cols[..c] + cols[c..];
    ExpandConcat(cols[..c], cols[c..], h);
    ExpandLength(cols[..c], h);
  }

  /** Fragment z of column c is at position c * h + z. */
  lemma ExpandAt(cols: seq<Column>, h: nat, c: nat, z: nat)
    requires c < |cols| && z < h
    ensures 0 <= c * h + z < |Expand(cols, h)|
    ensures Expand(cols, h)[c * h + z] == Block(cols[c], h)[z]
  {
    ExpandAround(cols, h, c);
  }

  /** Every position is some fragment of some column. */
  lemma ExpandPosition(cols: seq<Column>, h: nat, k: nat) returns (c: nat, z: nat)
    requires h > 0 && k < |Expand(cols, h)|
    ensures c < |cols| && z < h && k == c * h + z
    ensures Expand(cols, h)[k] == Block(cols[c], h)[z]
  {
    ExpandLength(cols, h);
    DivMod(k, h);
    DivUpper(k, h, |cols|);
    c, z := k / h, k % h;
    ExpandAt(cols, h, c, z);
  }

  lemma ExpandSorted(cols: seq<Column>, h: nat)
    requires h > 0 && SortedKeys(cols)
    ensures SortedIds(Expand(cols, h))
  {
    var ids := Expand(cols, h);
    forall k | 0 <= k < |ids|
      ensures |ids[k].id| == 3
    {
      var c, z := ExpandPosition(cols, h, k);
    }
    forall k, l | 0 <= k < l < |ids|
      ensures IdLess(ids[k].id, ids[l].id)
    {
      var c, z := ExpandPosition(cols, h, k);
      var d, w := ExpandPosition(cols, h, l);
      if c > d {
        MulMono(d + 1, c, h);
        MulDistrib(d, 1, h);
      }
    }
  }

  /** flat_map::at: the first position that is not before the id. */
  method At(ids: seq<Single>, id: Tuple) returns (k: nat)
    requires SortedIds(ids) && |id| == 3
    ensures k <= |ids|
    ensures forall i :: 0 <= i < k ==> IdLess(ids[i].id, id)
    ensures forall i :: k <= i < |ids| ==> !IdLess(ids[i].id, id)
  {
    var hi := |ids|;
    k := 0;
    while k < hi
      invariant 0 <= k <= hi <= |ids|
      invariant forall i :: 0 <= i < k ==> IdLess(ids[i].id, id)
      invariant forall i :: hi <= i < |ids| ==> !IdLess(ids[i].id, id)
    {
      var mid := k + (hi - k) / 2;
      if IdLess(ids[mid].id, id) {
        k := mid + 1;
      } else {
        hi := mid;
      }
    }
  }

  /** flat_map::find: found if and only if the id is there. */
  method Find(ids: seq<Single>, id: Tuple) returns (k: nat, found: bool)
    requires SortedIds(ids) && |id| == 3
    ensures k <= |ids|
    ensures forall i :: 0 <= i < k ==> IdLess(ids[i].id, id)
    ensures forall i :: k <= i < |ids| ==> !IdLess(ids[i].id, id)
    ensures found <==> exists i :: 0 <= i < |ids| && ids[i].id == id
    ensures found ==> k < |ids| && ids[k].id == id
  {
    k := At(ids, id);
    found := k < |ids| && ids[k].id == id;
  }

  /** Where a column is, or belongs. */
  ghost predicate ColumnPosition(cols: seq<Column>, key: (nat, nat), c: nat) {
    && c <= |cols|
    && (forall a :: 0 <= a < c ==> PairLess(cols[a].key, key))
    && (forall a :: c <= a < |cols| ==> !PairLess(cols[a].key, key))
  }

  lemma ColumnPositionExists(cols: seq<Column>, key: (nat, nat)) returns (c: nat)
    requires SortedKeys(cols)
    ensures ColumnPosition(cols, key, c)
  {
    c := 0;
    while c < |cols| && PairLess(cols[c].key, key)
      invariant c <= |cols| && forall a :: 0 <= a < c ==> PairLess(cols[a].key, key)
    {
      c := c + 1;
    }
  }

  /** The fragments of the columns before position c, and no others, come before the top of the column. */
  lemma SearchOrder(cols: seq<Column>, h: nat, key: (nat, nat), c: nat, i: nat)
    requires h > 0 && SortedKeys(cols) && ColumnPosition(cols, key, c) && i < |Expand(cols, h)|
    ensures |Expand(cols, h)[i].id| == 3
    ensures IdLess(Expand(cols, h)[i].id, [key.0, key.1, 0]) <==> i < c * h
  {
    var d, z := ExpandPosition(cols, h, i);
    if d < c {
      MulMono(d + 1, c, h);
      MulDistrib(d, 1, h);
      assert PairLess(cols[d].key, key);
    } else {
      MulMono(c, d, h);
      assert !PairLess(cols[d].key, key);
    }
  }

  /** A search in the expanded map ends at the top of a column. */
  lemma SearchFindsColumn(cols: seq<Column>, h: nat, key: (nat, nat), k: nat, c: nat)
    requires h > 0 && SortedKeys(cols) && ColumnPosition(cols, key, c)
    requires SortedIds(Expand(cols, h)) && k <= |Expand(cols, h)|
    requires forall i :: 0 <= i < k ==> IdLess(Expand(cols, h)[i].id, [key.0, key.1, 0])
    requires forall i :: k <= i < |Expand(cols, h)| ==> !IdLess(Expand(cols, h)[i].id, [key.0, key.1, 0])
    ensures k == c * h
    ensures (k < |Expand(cols, h)| && Expand(cols, h)[k].id == [key.0, key.1, 0])
            <==> c < |cols| && cols[c].key == key
  {
    ExpandLength(cols, h);
    MulMono(c, |cols|, h);
    if k < |Expand(cols, h)| {
      SearchOrder(cols, h, key, c, k);
    }
    if k > 0 {
      SearchOrder(cols, h, key, c, k - 1);
    }
    if c < |cols| {
      ExpandAt(cols, h, c, 0);
    }
  }

  /** vector::insert of zheight copies, which are then numbered. */
  method InsertColumn(ids: seq<Single>, k: nat, h: nat, block: Single) returns (r: seq<Single>)
    requires k <= |ids| && |block.id| == 3
    ensures r == ids[..k] + Block(Column((block.id[0], block.id[1]), block.offset, block.coordinates), h) + ids[k..]
  {
    var copies := seq(h, _ => block);
    r := ids[..k] + copies + ids[k..];
    ghost var col := Column((block.id[0], block.id[1]), block.offset, block.coordinates);
    for z := 0 to h
      invariant |r| == |ids| + h
      invariant r == ids[..k] + Block(col, h)[..z] + copies[z..] + ids[k..]
    {
      assert block.id[2 := z] == [block.id[0], block.id[1], z];
      r := r[k + z := r[k + z].(id := r[k + z].id[2 := z])];
    }
  }

  /** The traces of a point are added to every fragment of its column. */
  method AddCoordinate(ids: seq<Single>, k: nat, h: nat, lid: (nat, nat), ghost col: Column) returns (r: seq<Single>)
    requires k + h <= |ids| && ids[k..k + h] == Block(col, h)
    ensures r == ids[..k] + Block(col.(coordinates := col.coordinates + [lid]), h) + ids[k + h..]
  {
    r := ids;
    ghost var more := Block(col.(coordinates := col.coordinates + [lid]), h);
    for z := 0 to h
      invariant |r| == |ids|
      invariant r == ids[..k] + more[..z] + ids[k + z..]
    {
      assert ids[k + z] == ids[k..k + h][z];
      r := r[k + z := r[k + z].(coordinates := r[k + z].coordinates + [lid])];
    }
  }

  /** The columns with one more row. */
  ghost function WithPoint(cols: seq<Column>, c: nat, found: bool, key: (nat, nat), lid: (nat, nat), n: nat)
    : (r: seq<Column>)
    requires c <= |cols| && (found ==> c < |cols|)
  {
    if found then cols[c := cols[c].(coordinates := cols[c].coordinates + [lid])]
    else cols[..c] + [Column(key, n, [lid])] + cols[c..]
  }

  lemma ColumnKept(g: Gvt, pts: seq<Point>, n: nat, col: Column)
    requires Curtain(g) && n < |pts| && IsColumn(g, pts, n, col) && Key(g, pts[n]) != col.key
    ensures IsColumn(g, pts, n + 1, col)
  {
    assert Rows(g, pts, col.key, n + 1) == Rows(g, pts, col.key, n);
  }

  lemma ColumnGrown(g: Gvt, pts: seq<Point>, n: nat, col: Column)
    requires Curtain(g) && n < |pts| && IsColumn(g, pts, n, col) && Key(g, pts[n]) == col.key
    ensures IsColumn(g, pts, n + 1, col.(coordinates := col.coordinates + [Lateral(g, pts[n])]))
  {
    assert Rows(g, pts, col.key, n + 1) == Rows(g, pts, col.key, n) + [n];
  }

  /** Reading the coordinates off a list of rows. */
  function Laterals(g: Gvt, pts: seq<Point>, rows: seq<nat>): (r: seq<(nat, nat)>)
    requires Curtain(g) && forall m :: 0 <= m < |rows| ==> rows[m] < |pts|
    ensures |r| == |rows| && forall m :: 0 <= m < |rows| ==> r[m] == Lateral(g, pts[rows[m]])
  {
    seq(|rows|, m requires 0 <= m < |rows| => Lateral(g, pts[rows[m]]))
  }

  lemma ColumnStarted(g: Gvt, pts: seq<Point>, n: nat)
    requires Curtain(g) && n < |pts| && |Rows(g, pts, Key(g, pts[n]), n)| == 0
    ensures IsColumn(g, pts, n + 1, Column(Key(g, pts[n]), n, [Lateral(g, pts[n])]))
  {
    var key := Key(g, pts[n]);
    assert Rows(g, pts, key, n + 1) == Rows(g, pts, key, n) + [n];
    assert Rows(g, pts, key, n + 1) == [n];
    assert Laterals(g, pts, [n]) == [Lateral(g, pts[n])];
  }

  lemma RowsHaveColumn(g: Gvt, pts: seq<Point>, key: (nat, nat), n: nat, cols: seq<Column>)
    requires Curtain(g) && n <= |pts| && IsColumns(g, pts, n, cols) && |Rows(g, pts, key, n)| > 0
    ensures HasColumn(cols, key)
  {
    var r := Rows(g, pts, key, n)[0];
    assert HasColumn(cols, Key(g, pts[r]));
  }

  lemma HasColumnAt(cols: seq<Column>, c: nat)
    requires c < |cols|
    ensures HasColumn(cols, cols[c].key)
  {}

  lemma StillCoveredGrown(g: Gvt, pts: seq<Point>, cols: seq<Column>, c: nat, col: Column, key: (nat, nat))
    requires Curtain(g) && c < |cols| && col.key == cols[c].key && HasColumn(cols, key)
    ensures HasColumn(cols[c := col], key)
  {
    var a :| 0 <= a < |cols| && cols[a].key == key;
    HasColumnAt(cols[c := col], a);
  }

  lemma OtherKeys(cols: seq<Column>, c: nat, a: nat)
    requires SortedKeys(cols) && a < |cols| && c < |cols| && a != c
    ensures cols[a].key != cols[c].key
  {
    assert PairLess(cols[a].key, cols[c].key) || PairLess(cols[c].key, cols[a].key);
  }

  lemma ColumnsGrown(g: Gvt, pts: seq<Point>, n: nat, cols: seq<Column>, c: nat, col: Column)
    requires Curtain(g) && n < |pts| && IsColumns(g, pts, n, cols)
    requires c < |cols| && cols[c].key == Key(g, pts[n])
    requires col == cols[c].(coordinates := cols[c].coordinates + [Lateral(g, pts[n])])
    ensures IsColumns(g, pts, n + 1, cols[c := col])
  {
    var next := cols[c := col];
    ColumnGrown(g, pts, n, cols[c]);
    forall a | 0 <= a < |next|
      ensures IsColumn(g, pts, n + 1, next[a])
    {
      if a != c {
        OtherKeys(cols, c, a);
        ColumnKept(g, pts, n, cols[a]);
      }
    }
    HasColumnAt(next, c);
    forall r | 0 <= r < n
      ensures HasColumn(next, Key(g, pts[r]))
    {
      StillCoveredGrown(g, pts, cols, c, col, Key(g, pts[r]));
    }
  }

  lemma SortedInserted(cols: seq<Column>, c: nat, col: Column)
    requires SortedKeys(cols) && ColumnPosition(cols, col.key, c)
    requires forall a :: 0 <= a < |cols| ==> cols[a].key != col.key
    ensures SortedKeys(cols[..c] + [col] + cols[c..])
  {
    var next := cols[..c] + [col] + cols[c..];
    forall a, b | 0 <= a < b < |next|
      ensures PairLess(next[a].key, next[b].key)
    {
      if b == c {
        assert PairLess(cols[a].key, col.key);
      } else if a == c {
        assert next[b] == cols[b - 1] && !PairLess(cols[b - 1].key, col.key);
      } else {
        assert next[a] == cols[if a < c then a else a - 1] && next[b] == cols[if b < c then b else b - 1];
      }
    }
  }

  /** Column a of the longer list is a column of the shorter one, or the new column. */
  lemma InsertedAt(cols: seq<Column>, c: nat, col: Column, a: nat)
    requires c <= |cols| && a <= |cols|
    ensures (cols[..c] + [col] + cols[c..])[a] == if a < c then cols[a] else if a == c then col else cols[a - 1]
  {}

  lemma StillCovered(g: Gvt, pts: seq<Point>, cols: seq<Column>, c: nat, col: Column, r: nat)
    requires Curtain(g) && r < |pts| && c <= |cols|
    requires HasColumn(cols, Key(g, pts[r])) || Key(g, pts[r]) == col.key
    ensures HasColumn(cols[..c] + [col] + cols[c..], Key(g, pts[r]))
  {
    var next := cols[..c] + [col] + cols[c..];
    if Key(g, pts[r]) == col.key {
      InsertedAt(cols, c, col, c);
      HasColumnAt(next, c);
    } else {
      var a :| 0 <= a < |cols| && cols[a].key == Key(g, pts[r]);
      var b := if a < c then a else a + 1;
      InsertedAt(cols, c, col, b);
      HasColumnAt(next, b);
    }
  }

  lemma ColumnsInserted(g: Gvt, pts: seq<Point>, n: nat, cols: seq<Column>, c: nat)
    requires Curtain(g) && n < |pts| && IsColumns(g, pts, n, cols)
    requires ColumnPosition(cols, Key(g, pts[n]), c)
    requires forall a :: 0 <= a < |cols| ==> cols[a].key != Key(g, pts[n])
    ensures IsColumns(g, pts, n + 1, cols[..c] + [Column(Key(g, pts[n]), n, [Lateral(g, pts[n])])] + cols[c..])
  {
    var col := Column(Key(g, pts[n]), n, [Lateral(g, pts[n])]);
    var next := cols[..c] + [col] + cols[c..];
    SortedInserted(cols, c, col);
    if |Rows(g, pts, col.key, n)| > 0 {
      RowsHaveColumn(g, pts, col.key, n, cols);
    }
    ColumnStarted(g, pts, n);
    forall a | 0 <= a < |next|
      ensures IsColumn(g, pts, n + 1, next[a])
    {
      InsertedAt(cols, c, col, a);
      if a != c {
        ColumnKept(g, pts, n, next[a]);
      }
    }
    forall r | 0 <= r < n + 1
      ensures HasColumn(next, Key(g, pts[r]))
    {
      StillCovered(g, pts, cols, c, col, r);
    }
  }

  /** One turn of the loop of build keeps the columns those of the points seen so far. */
  lemma ColumnsStep(g: Gvt, pts: seq<Point>, n: nat, cols: seq<Column>, c: nat, found: bool)
    requires Curtain(g) && n < |pts| && IsColumns(g, pts, n, cols)
    requires ColumnPosition(cols, Key(g, pts[n]), c)
    requires found <==> c < |cols| && cols[c].key == Key(g, pts[n])
    ensures IsColumns(g, pts, n + 1, WithPoint(cols, c, found, Key(g, pts[n]), Lateral(g, pts[n]), n))
  {
    var next := WithPoint(cols, c, found, Key(g, pts[n]), Lateral(g, pts[n]), n);
    if found {
      ColumnsGrown(g, pts, n, cols, c, next[c]);
    } else {
      forall a | 0 <= a < |cols|
        ensures cols[a].key != Key(g, pts[n])
      {
        if a < c {
          assert PairLess(cols[a].key, Key(g, pts[n]));
        } else if c < a {
          assert PairLess(cols[c].key, cols[a].key) && !PairLess(cols[c].key, Key(g, pts[n]));
        }
      }
      ColumnsInserted(g, pts, n, cols, c);
    }
  }

  /**
   * The fragments of a curtain for one geometry: the loop of build over the
   * points. The result is the expansion of the points' columns.
   */
  method BuildIds(g: Gvt, pts: seq<Point>) returns (ids: seq<Single>, ghost cols: seq<Column>)
    requires Curtain(g) && PointsIn(g, pts)
    ensures IsColumns(g, pts, |pts|, cols)
    ensures ids == Expand(cols, g.FragmentCount(2))
  {
    ids, cols := [], [];
    var h := g.FragmentCount(2);
    GlobalToLocal(g.cube[2], g.frag[2], 0);
    for i := 0 to |pts|
      invariant IsColumns(g, pts, i, cols)
      invariant ids == Expand(cols, h)
    {
      ids, cols := BuildStep(g, pts, i, h, ids, cols);
    }
  }

  /** One point: find its column, or put it in, and add the point's position. */
  method BuildStep(g: Gvt, pts: seq<Point>, i: nat, h: nat, ids0: seq<Single>, ghost cols0: seq<Column>)
    returns (ids: seq<Single>, ghost cols: seq<Column>)
    requires Curtain(g) && PointsIn(g, pts) && i < |pts| && h > 0
    requires IsColumns(g, pts, i, cols0) && ids0 == Expand(cols0, h)
    ensures IsColumns(g, pts, i + 1, cols) && ids == Expand(cols, h)
  {
    ghost var key, lid := Key(g, pts[i]), Lateral(g, pts[i]);
    TopIs(g, pts[i]);
    var fid := FragmentOf(g, Top(pts[i]));
    ExpandSorted(cols0, h);
    ghost var c := ColumnPositionExists(cols0, key);
    var k, found := Find(ids0, fid);
    SearchFindsColumn(cols0, h, key, k, c);
    ids := ids0;
    if !found {
      ids := InsertColumn(ids, k, h, Single(fid, i, []));
    }
    ghost var at := WithColumn(cols0, c, found, key, i);
    ColumnInserted(cols0, h, c, Column(key, i, []));
    var local := ToLocal(g, Top(pts[i]));
    ExpandAround(at, h, c);
    ids := AddCoordinate(ids, k, h, (local[0], local[1]), at[c]);
    ColumnReplaced(at, h, c, at[c].(coordinates := at[c].coordinates + [lid]));
    cols := WithPoint(cols0, c, found, key, lid, i);
    ColumnsStep(g, pts, i, cols0, c, found);
    WithColumnGrown(cols0, c, found, key, lid, i);
  }

  /** The columns, with an empty one put in when the point's column is not there yet. */
  ghost function WithColumn(cols: seq<Column>, c: nat, found: bool, key: (nat, nat), n: nat): (r: seq<Column>)
    requires c <= |cols| && (found ==> c < |cols|)
    ensures c < |r|
  {
    if found then cols else cols[..c] + [Column(key, n, [])] + cols[c..]
  }

  lemma WithColumnGrown(cols: seq<Column>, c: nat, found: bool, key: (nat, nat), lid: (nat, nat), n: nat)
    requires c <= |cols| && (found ==> c < |cols|)
    ensures var at := WithColumn(cols, c, found, key, n);
            at[c := at[c].(coordinates := at[c].coordinates + [lid])] == WithPoint(cols, c, found, key, lid, n)
  {
    assert [] + [lid] == [lid];
  }

  lemma ColumnInserted(cols: seq<Column>, h: nat, c: nat, col: Column)
    requires c <= |cols|
    ensures c * h <= |Expand(cols, h)|
    ensures Expand(cols[..c] + [col] + cols[c..], h)
            == Expand(cols, h)[..c * h] + Block(col, h) + Expand(cols, h)[c * h..]
  {
    ExpandBetween(cols, h, c);
    var next := cols[..c] + [col] + cols[c..];
    ExpandAround(next, h, c);
    assert next[..c] == cols[..c] && next[c + 1..] == cols[c..];
  }

  lemma ColumnReplaced(cols: seq<Column>, h: nat, c: nat, col: Column)
    requires c < |cols|
    ensures c * h + h <= |Expand(cols, h)|
    ensures Expand(cols[c := col], h) == Expand(cols, h)[..c * h] + Block(col, h) + Expand(cols, h)[c * h + h..]
  {
    ExpandAround(cols, h, c);
    ExpandAround(cols[c := col], h, c);
    assert cols[c := col][..c] == cols[..c] && cols[c := col][c + 1..] == cols[c + 1..];
  }
}
