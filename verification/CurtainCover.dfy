/**
 * The fragments of a planned curtain cover the requested traces: the values
 * are always those of some requested point, and when all rows of a column are
 * next to each other, every cell is written exactly once.
 */
module CurtainCover {
  import opened Arith
  import opened Lists
  import opened Shapes
  import opened Geometry
  import opened Cells
  import opened Messages
  import opened CurtainPlan
  import opened Grouping
  import opened CurtainWorker
  import opened CurtainQuery
  import CurtainSize

  /** A task for one volume with all fragments of the points' columns; a fragment and the traces fit in an int. */
  ghost predicate Planned(task: CurtainTask, pts: seq<Point>, cols: seq<Column>) {
    var g := task.volume.Gvt();
    && Curtain(g) && Prod(g.frag) <= INT_MAX && PointsIn(g, pts)
    && g.cube[2] <= INT_MAX && |pts| * g.cube[2] <= INT_MAX
    && IsColumns(g, pts, |pts|, cols) && task.ids == Expand(cols, g.FragmentCount(2))
  }

  /** The rows of column c. */
  function RowsOf(g: Gvt, pts: seq<Point>, col: Column): seq<nat>
    requires Curtain(g)
  {
    CurtainPlan.Rows(g, pts, col.key, |pts|)
  }

  lemma ColumnFacts(g: Gvt, pts: seq<Point>, cols: seq<Column>, c: nat)
    requires Curtain(g) && PointsIn(g, pts) && IsColumns(g, pts, |pts|, cols) && c < |cols|
    ensures var col, rows := cols[c], RowsOf(g, pts, cols[c]);
            && |rows| == |col.coordinates| > 0 && col.offset == rows[0]
            && col.offset + |rows| <= |pts|
            && col.key.0 < g.FragmentCount(0) && col.key.1 < g.FragmentCount(1)
            && forall m :: 0 <= m < |rows| ==>
                 col.coordinates[m] == Lateral(g, pts[rows[m]]) && Key(g, pts[rows[m]]) == col.key
  {
    assert IsColumn(g, pts, |pts|, cols[c]);
    var rows := RowsOf(g, pts, cols[c]);
    Increasing(rows, |rows| - 1);
    var p := pts[rows[0]];
    GlobalToLocal(g.cube[0], g.frag[0], p.0);
    GlobalToLocal(g.cube[1], g.frag[1], p.1);
  }

  lemma {:induction false} Increasing(rows: seq<nat>, m: nat)
    requires m < |rows| && forall i, j :: 0 <= i < j < |rows| ==> rows[i] < rows[j]
    ensures rows[0] + m <= rows[m]
  {
    if m > 0 {
      Increasing(rows, m - 1);
    }
  }

  lemma BlockValid(g: Gvt, pts: seq<Point>, cols: seq<Column>, c: nat, z: nat)
    requires Curtain(g) && PointsIn(g, pts) && IsColumns(g, pts, |pts|, cols)
    requires c < |cols| && z < g.FragmentCount(2)
    ensures SingleValid(g, Block(cols[c], g.FragmentCount(2))[z])
  {
    ColumnFacts(g, pts, cols, c);
    var s, rows := Block(cols[c], g.FragmentCount(2))[z], RowsOf(g, pts, cols[c]);
    forall m | 0 <= m < |s.coordinates|
      ensures s.coordinates[m].0 < g.frag[0] && s.coordinates[m].1 < g.frag[1]
    {
      assert s.coordinates[m] == Lateral(g, pts[rows[m]]);
    }
  }

  lemma RowsFit(rows: nat, depth: nat)
    requires depth > 0
    ensures rows <= rows * depth
  {
    MulMono(1, depth, rows);
  }

  lemma PlannedSingle(task: CurtainTask, pts: seq<Point>, cols: seq<Column>, k: nat)
    requires Planned(task, pts, cols) && k < |task.ids|
    ensures SingleValid(task.volume.Gvt(), task.ids[k]) && LastRow(task.ids[k]) <= |pts|
  {
    var g := task.volume.Gvt();
    GlobalToLocal(g.cube[2], g.frag[2], 0);
    var c, z := ExpandPosition(cols, g.FragmentCount(2), k);
    BlockValid(g, pts, cols, c, z);
    ColumnFacts(g, pts, cols, c);
  }

  /** A planned task is one the workers accept, and it stays inside the output. */
  lemma PlannedValid(task: CurtainTask, pts: seq<Point>, cols: seq<Column>)
    requires Planned(task, pts, cols)
    ensures TaskValid(task)
    ensures forall k :: 0 <= k < |task.ids| ==> LastRow(task.ids[k]) <= |pts|
  {
    var g := task.volume.Gvt();
    forall k | 0 <= k < |task.ids|
      ensures SingleValid(g, task.ids[k]) && LastRow(task.ids[k]) <= |pts|
    {
      PlannedSingle(task, pts, cols, k);
    }
    CurtainSize.PlannedSize(g, pts, cols, task.ids);
    RowsFit(|pts|, g.cube[2]);
  }

  lemma PlannedStored(task: CurtainTask, pts: seq<Point>, cols: seq<Column>, cube: Cube, store: Store)
    requires Planned(task, pts, cols) && Stores(store, task.volume.Gvt(), cube)
    ensures TaskValid(task) && Stored(task, store)
  {
    PlannedValid(task, pts, cols);
    forall k | 0 <= k < |task.ids|
      ensures task.ids[k].id in store && |store[task.ids[k].id]| == Prod(task.volume.shape)
    {
      assert SingleValid(task.volume.Gvt(), task.ids[k]);
      assert FragmentStored(store, task.volume.Gvt(), cube, task.ids[k].id);
    }
  }

  /** In a contiguous list of points, a column's rows follow its offset. */
  lemma {:induction false} ContiguousRows(g: Gvt, pts: seq<Point>, col: Column, m: nat)
    requires Curtain(g) && Contiguous(g, pts) && m < |RowsOf(g, pts, col)|
    ensures RowsOf(g, pts, col)[m] == RowsOf(g, pts, col)[0] + m
  {
    var rows := RowsOf(g, pts, col);
    if m > 0 {
      ContiguousRows(g, pts, col, m - 1);
      var r := rows[m - 1] + 1;
      assert Key(g, pts[rows[m - 1]]) == Key(g, pts[rows[m]]) == col.key;
      assert Key(g, pts[r]) == col.key;
      var i :| 0 <= i < |rows| && rows[i] == r;
      assert i > m - 1;
      assert i <= m;
    }
  }

  /*
   * What a task needs so that it covers the requested traces
   */

  /** Row offset + m of the output is a point of the fragment's column, at the m-th coordinate. */
  ghost predicate RowRight(g: Gvt, pts: seq<Point>, s: Single, m: nat)
    requires Curtain(g) && |s.id| == 3 && m < |s.coordinates|
  {
    && s.offset + m < |pts|
    && Key(g, pts[s.offset + m]) == (s.id[0], s.id[1])
    && Lateral(g, pts[s.offset + m]) == s.coordinates[m]
  }

  ghost predicate RowsRight(g: Gvt, pts: seq<Point>, s: Single)
    requires Curtain(g) && |s.id| == 3
  {
    forall m :: 0 <= m < |s.coordinates| ==> RowRight(g, pts, s, m)
  }

  /** Some fragment delivers row r at the depths of fragment layer z. */
  ghost predicate RowThere(ids: seq<Single>, key: (nat, nat), r: nat, z: nat) {
    exists k :: 0 <= k < |ids| && ids[k].id == [key.0, key.1, z]
                && ids[k].offset <= r < ids[k].offset + |ids[k].coordinates|
  }

  ghost predicate Delivers(task: CurtainTask, pts: seq<Point>) {
    TaskValid(task) &&
    var g := task.volume.Gvt();
    && PointsIn(g, pts)
    && (forall k :: 0 <= k < |task.ids| ==> RowsRight(g, pts, task.ids[k]))
    && (forall k, l :: 0 <= k < l < |task.ids| ==> task.ids[k].id != task.ids[l].id)
    && (forall r: nat, z: nat :: r < |pts| && z < g.FragmentCount(2) ==> RowThere(task.ids, Key(g, pts[r]), r, z))
  }

  /** The cell of the output for row r at depth d. */
  function Out(g: Gvt, r: nat, d: nat): nat
    requires Curtain(g)
  {
    MulMono(0, r, g.cube[2]);
    r * g.cube[2] + d
  }

  /** Sample j of a fragment, as a depth of the cube. */
  function DepthOf(g: Gvt, s: Single, j: nat): nat
    requires Curtain(g) && |s.id| == 3
  {
    FirstDepth(g, s) + j
  }

  /** Two cells of the output are the same only if they are in the same row, at the same depth. */
  lemma SameCell(g: Gvt, r: nat, d: nat, r': nat, d': nat)
    requires Curtain(g) && d < g.cube[2] && d' < g.cube[2]
    ensures Out(g, r, d) == Out(g, r', d') ==> r == r' && d == d'
  {
    if Out(g, r, d) == Out(g, r', d') {
      RowMajorUnique(r, d, r', d', g.cube[2]);
    }
  }

  /** Depths of different fragments of a column differ, and so do depths in the same fragment. */
  lemma SameDepth(g: Gvt, s: Single, j: nat, s': Single, j': nat)
    requires Curtain(g) && SingleValid(g, s) && SingleValid(g, s')
    requires j < Depth(g, s.id) && j' < Depth(g, s'.id)
    ensures DepthOf(g, s, j) == DepthOf(g, s', j') ==> s.id[2] == s'.id[2] && j == j'
  {
    if DepthOf(g, s, j) == DepthOf(g, s', j') {
      RowMajorUnique(s.id[2], j, s'.id[2], j', g.frag[2]);
    }
  }

  lemma DepthIn(g: Gvt, s: Single, j: nat)
    requires Curtain(g) && SingleValid(g, s) && j < Depth(g, s.id)
    ensures DepthOf(g, s, j) < g.cube[2]
  {
    LocalToGlobal(g.cube[2], g.frag[2], s.id[2], j);
  }

  /** Write j of trace m of a fragment. */
  lemma PieceAt(g: Gvt, s: Single, chunk: seq<Sample>, m: nat, j: nat)
    requires Curtain(g) && SingleValid(g, s) && |chunk| == Prod(g.frag)
    requires m < |s.coordinates| && j < Depth(g, s.id)
    ensures TracePiece(g, s, chunk, m)[j]
            == Write(Out(g, s.offset + m, DepthOf(g, s, j)), TraceOf(g, s, chunk, m)[j])
  {
    MulMono(0, s.offset + m, g.cube[2]);
  }

  /** Every write of a fragment is one of those. */
  lemma PieceOwns(g: Gvt, s: Single, chunk: seq<Sample>, i: nat) returns (m: nat, j: nat)
    requires Curtain(g) && SingleValid(g, s) && |chunk| == Prod(g.frag) && i < |SinglePiece(g, s, chunk)|
    ensures m < |s.coordinates| && j < Depth(g, s.id)
    ensures SinglePiece(g, s, chunk)[i] == Write(Out(g, s.offset + m, DepthOf(g, s, j)), TraceOf(g, s, chunk, m)[j])
  {
    var piece, traces := SinglePiece(g, s, chunk), TracePieces(g, s, chunk);
    FlattenMember(traces, piece[i]);
    m :| 0 <= m < |traces| && piece[i] in traces[m];
    j :| 0 <= j < |traces[m]| && traces[m][j] == piece[i];
    PieceAt(g, s, chunk, m, j);
  }

  /** Sample j of trace m of a fragment is the cube's, at the point of its row. */
  lemma TraceValue(g: Gvt, pts: seq<Point>, p: Point, s: Single, m: nat, j: nat, cube: Cube, store: Store)
    requires Curtain(g) && SingleValid(g, s) && m < |s.coordinates| && j < Depth(g, s.id)
    requires p.0 < g.cube[0] && p.1 < g.cube[1]
    requires Key(g, p) == (s.id[0], s.id[1]) && Lateral(g, p) == s.coordinates[m]
    requires FragmentStored(store, g, cube, s.id)
    ensures TraceOf(g, s, store[s.id], m)[j] == cube([p.0, p.1, DepthOf(g, s, j)])
  {
    var l := [s.coordinates[m].0, s.coordinates[m].1, j];
    GlobalToLocal(g.cube[0], g.frag[0], p.0);
    GlobalToLocal(g.cube[1], g.frag[1], p.1);
    assert InShape(l, g.RealShape(s.id));
    assert g.Global(s.id, l) == [p.0, p.1, DepthOf(g, s, j)];
    TraceInChunk(g, s.coordinates[m], j);
  }

  /** A fragment whose rows are right writes the requested values. */
  lemma PieceRight(g: Gvt, pts: seq<Point>, s: Single, cube: Cube, store: Store)
    requires Curtain(g) && PointsIn(g, pts) && SingleValid(g, s) && RowsRight(g, pts, s)
    requires FragmentStored(store, g, cube, s.id)
    ensures Right(SinglePiece(g, s, store[s.id]), CurtainTarget(g, pts, cube))
  {
    var piece := SinglePiece(g, s, store[s.id]);
    forall i | 0 <= i < |piece|
      ensures piece[i].at < |CurtainTarget(g, pts, cube)|
      ensures piece[i].value == CurtainTarget(g, pts, cube)[piece[i].at]
    {
      var m, j := PieceOwns(g, s, store[s.id], i);
      assert RowRight(g, pts, s, m);
      DepthIn(g, s, j);
      TraceValue(g, pts, pts[s.offset + m], s, m, j, cube, store);
      TargetAt(g, pts, cube, s.offset + m, DepthOf(g, s, j));
    }
  }

  /** No fragment writes a cell twice. */
  lemma PieceOnce(g: Gvt, s: Single, chunk: seq<Sample>)
    requires Curtain(g) && SingleValid(g, s) && |chunk| == Prod(g.frag)
    ensures Once(SinglePiece(g, s, chunk))
  {
    var traces := TracePieces(g, s, chunk);
    forall m, m' | 0 <= m < m' < |traces|
      ensures Apart(traces[m], traces[m'])
    {
      forall j, j' | 0 <= j < |traces[m]| && 0 <= j' < |traces[m']|
        ensures traces[m][j].at != traces[m'][j'].at
      {
        PieceAt(g, s, chunk, m, j);
        PieceAt(g, s, chunk, m', j');
        DepthIn(g, s, j);
        DepthIn(g, s, j');
        SameCell(g, s.offset + m, DepthOf(g, s, j), s.offset + m', DepthOf(g, s, j'));
      }
    }
    FlattenOnce(traces);
  }

  /** Two fragments that write the same cell are the same fragment. */
  lemma PiecesApart(g: Gvt, pts: seq<Point>, s: Single, s': Single, chunk: seq<Sample>, chunk': seq<Sample>)
    requires Curtain(g) && SingleValid(g, s) && SingleValid(g, s') && s.id != s'.id
    requires |chunk| == |chunk'| == Prod(g.frag) && RowsRight(g, pts, s) && RowsRight(g, pts, s')
    ensures Apart(SinglePiece(g, s, chunk), SinglePiece(g, s', chunk'))
  {
    var a, b := SinglePiece(g, s, chunk), SinglePiece(g, s', chunk');
    forall i, i' | 0 <= i < |a| && 0 <= i' < |b|
      ensures a[i].at != b[i'].at
    {
      var m, j := PieceOwns(g, s, chunk, i);
      var m', j' := PieceOwns(g, s', chunk', i');
      DepthIn(g, s, j);
      DepthIn(g, s', j');
      assert RowRight(g, pts, s, m) && RowRight(g, pts, s', m');
      assert s.id == [s.id[0], s.id[1], s.id[2]] && s'.id == [s'.id[0], s'.id[1], s'.id[2]];
      SameCell(g, s.offset + m, DepthOf(g, s, j), s'.offset + m', DepthOf(g, s', j'));
      SameDepth(g, s, j, s', j');
    }
  }

  /** Every requested cell is written. */
  lemma PiecesReach(task: CurtainTask, pts: seq<Point>, store: Store, x: nat)
    requires Delivers(task, pts) && Stored(task, store) && x < |pts| * task.volume.Gvt().cube[2]
    ensures Written(Flatten(SinglePieces(task, store)), x)
  {
    var g := task.volume.Gvt();
    CellOf(g, pts, x);
    var r, d := x / g.cube[2], x % g.cube[2];
    GlobalToLocal(g.cube[2], g.frag[2], d);
    var z, j := d / g.frag[2], d % g.frag[2];
    assert RowThere(task.ids, Key(g, pts[r]), r, z);
    var k :| 0 <= k < |task.ids| && task.ids[k].id == [Key(g, pts[r]).0, Key(g, pts[r]).1, z]
             && task.ids[k].offset <= r < task.ids[k].offset + |task.ids[k].coordinates|;
    PieceReaches(g, task.ids[k], store[task.ids[k].id], r - task.ids[k].offset, j);
    var i :| 0 <= i < |SinglePieces(task, store)[k]| && SinglePieces(task, store)[k][i].at == x;
    FlattenWritten(SinglePieces(task, store), k, i);
  }

  lemma PieceReaches(g: Gvt, s: Single, chunk: seq<Sample>, m: nat, j: nat)
    requires Curtain(g) && SingleValid(g, s) && |chunk| == Prod(g.frag)
    requires m < |s.coordinates| && j < Depth(g, s.id)
    ensures Written(SinglePiece(g, s, chunk), Out(g, s.offset + m, DepthOf(g, s, j)))
  {
    PieceAt(g, s, chunk, m, j);
    FlattenWritten(TracePieces(g, s, chunk), m, j);
  }

  /** A task that delivers every row writes every requested sample exactly once. */
  lemma DeliveredCovered(task: CurtainTask, pts: seq<Point>, cube: Cube, store: Store)
    requires Delivers(task, pts) && Stores(store, task.volume.Gvt(), cube)
    ensures Stored(task, store)
    ensures ExactCover(Flatten(SinglePieces(task, store)), CurtainTarget(task.volume.Gvt(), pts, cube))
  {
    var g := task.volume.Gvt();
    forall k | 0 <= k < |task.ids|
      ensures FragmentStored(store, g, cube, task.ids[k].id)
    {
      assert SingleValid(g, task.ids[k]);
    }
    var pieces, target := SinglePieces(task, store), CurtainTarget(g, pts, cube);
    forall k | 0 <= k < |pieces|
      ensures Right(pieces[k], target) && Once(pieces[k])
    {
      PieceRight(g, pts, task.ids[k], cube, store);
      PieceOnce(g, task.ids[k], store[task.ids[k].id]);
    }
    forall k, k' | 0 <= k < k' < |pieces|
      ensures Apart(pieces[k], pieces[k'])
    {
      PiecesApart(g, pts, task.ids[k], task.ids[k'], store[task.ids[k].id], store[task.ids[k'].id]);
    }
    FlattenRight(pieces, target);
    FlattenOnce(pieces);
    forall x: nat | x < |target|
      ensures Written(Flatten(pieces), x)
    {
      PiecesReach(task, pts, store, x);
    }
    CoverFromParts(Flatten(pieces), target);
  }

  /*
   * Planned tasks deliver every row
   */

  /** The column of a row, and the row's place in it. */
  lemma RowInColumn(g: Gvt, pts: seq<Point>, cols: seq<Column>, r: nat) returns (c: nat, m: nat)
    requires Curtain(g) && PointsIn(g, pts) && IsColumns(g, pts, |pts|, cols) && r < |pts|
    ensures c < |cols| && cols[c].key == Key(g, pts[r])
    ensures m < |RowsOf(g, pts, cols[c])| && RowsOf(g, pts, cols[c])[m] == r
  {
    assert HasColumn(cols, Key(g, pts[r]));
    c :| 0 <= c < |cols| && cols[c].key == Key(g, pts[r]);
    var rows := RowsOf(g, pts, cols[c]);
    assert r in rows;
    m :| 0 <= m < |rows| && rows[m] == r;
  }

  lemma RowInRun(g: Gvt, pts: seq<Point>, cols: seq<Column>, c: nat, m: nat)
    requires Curtain(g) && PointsIn(g, pts) && IsColumns(g, pts, |pts|, cols) && Contiguous(g, pts)
    requires c < |cols| && m < |RowsOf(g, pts, cols[c])|
    ensures cols[c].offset <= RowsOf(g, pts, cols[c])[m] < cols[c].offset + |cols[c].coordinates|
  {
    ColumnFacts(g, pts, cols, c);
    ContiguousRows(g, pts, cols[c], m);
  }

  lemma PlannedRow(task: CurtainTask, pts: seq<Point>, cols: seq<Column>, r: nat, z: nat)
    requires Planned(task, pts, cols) && Contiguous(task.volume.Gvt(), pts)
    requires r < |pts| && z < task.volume.Gvt().FragmentCount(2)
    ensures RowThere(task.ids, Key(task.volume.Gvt(), pts[r]), r, z)
  {
    var g := task.volume.Gvt();
    var c, m := RowInColumn(g, pts, cols, r);
    RowInRun(g, pts, cols, c, m);
    ExpandAt(cols, g.FragmentCount(2), c, z);
    assert task.ids[c * g.FragmentCount(2) + z].id == [cols[c].key.0, cols[c].key.1, z];
  }

  lemma PlannedRight(g: Gvt, pts: seq<Point>, cols: seq<Column>, c: nat, z: nat)
    requires Curtain(g) && PointsIn(g, pts) && IsColumns(g, pts, |pts|, cols) && Contiguous(g, pts)
    requires c < |cols| && z < g.FragmentCount(2)
    ensures RowsRight(g, pts, Block(cols[c], g.FragmentCount(2))[z])
  {
    var s, rows := Block(cols[c], g.FragmentCount(2))[z], RowsOf(g, pts, cols[c]);
    ColumnFacts(g, pts, cols, c);
    assert s == Single([cols[c].key.0, cols[c].key.1, z], cols[c].offset, cols[c].coordinates);
    forall m | 0 <= m < |s.coordinates|
      ensures RowRight(g, pts, s, m)
    {
      ContiguousRows(g, pts, cols[c], m);
      assert rows[m] == s.offset + m;
      assert Lateral(g, pts[rows[m]]) == s.coordinates[m] && Key(g, pts[rows[m]]) == cols[c].key;
    }
  }

  lemma PlannedDelivers(task: CurtainTask, pts: seq<Point>, cols: seq<Column>)
    requires Planned(task, pts, cols) && Contiguous(task.volume.Gvt(), pts)
    ensures Delivers(task, pts)
  {
    var g := task.volume.Gvt();
    var h := g.FragmentCount(2);
    PlannedValid(task, pts, cols);
    GlobalToLocal(g.cube[2], g.frag[2], 0);
    forall k | 0 <= k < |task.ids|
      ensures RowsRight(g, pts, task.ids[k])
    {
      var c, z := ExpandPosition(cols, h, k);
      PlannedRight(g, pts, cols, c, z);
    }
    ExpandSorted(cols, h);
    forall k, l | 0 <= k < l < |task.ids|
      ensures task.ids[k].id != task.ids[l].id
    {
      assert IdLess(task.ids[k].id, task.ids[l].id);
    }
    forall r: nat, z: nat | r < |pts| && z < h
      ensures RowThere(task.ids, Key(g, pts[r]), r, z)
    {
      PlannedRow(task, pts, cols, r, z);
    }
  }

  /**
   * A curtain whose columns are contiguous: the fragments of its task write
   * every requested sample exactly once, although columns are split in depth,
   * points may repeat, and edge fragments are padded.
   */
  lemma CurtainCovered(task: CurtainTask, pts: seq<Point>, cols: seq<Column>, cube: Cube, store: Store)
    requires Planned(task, pts, cols) && Contiguous(task.volume.Gvt(), pts)
    requires Stores(store, task.volume.Gvt(), cube)
    ensures TaskValid(task) && Stored(task, store)
    ensures ExactCover(Flatten(SinglePieces(task, store)), CurtainTarget(task.volume.Gvt(), pts, cube))
  {
    PlannedDelivers(task, pts, cols);
    DeliveredCovered(task, pts, cube, store);
  }
}
