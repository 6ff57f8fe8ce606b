/**
 * How many samples a planned curtain delivers: the columns share the rows, and
 * the fragments of a column share the depth, so it is as many as there are
 * rows, times the depth. The prefix sums of the workers stay below that.
 */
module CurtainSize {
  import opened Arith
  import opened Lists
  import opened Geometry
  import opened Messages
  import opened CurtainPlan
  import opened CurtainWorker

  /*
   * The columns share the rows
   */

  /** The rows of every column. */
  function RowLists(g: Gvt, pts: seq<Point>, cols: seq<Column>): (r: seq<seq<nat>>)
    requires Curtain(g)
    ensures |r| == |cols|
  {
    seq(|cols|, c requires 0 <= c < |cols| => Rows(g, pts, cols[c].key, |pts|))
  }

  /** Lists of numbers below n, such that no number is in two of them, and none is in one twice. */
  ghost predicate Disjoint(lists: seq<seq<nat>>, n: nat) {
    && (forall c :: 0 <= c < |lists| ==> DistinctBelow(lists[c], n))
    && (forall c, d, i, j :: 0 <= c < d < |lists| && 0 <= i < |lists[c]| && 0 <= j < |lists[d]| ==>
          lists[c][i] != lists[d][j])
  }

  lemma {:induction false} FlattenDistinct(lists: seq<seq<nat>>, n: nat, k: nat)
    requires Disjoint(lists, n) && k <= |lists|
    ensures DistinctBelow(FlattenTo(lists, k), n)
  {
    if k > 0 {
      FlattenDistinct(lists, n, k - 1);
      var before, last := FlattenTo(lists, k - 1), lists[k - 1];
      forall i, j | 0 <= i < |before| && 0 <= j < |last|
        ensures before[i] != last[j]
      {
        FlattenMemberTo(lists, k - 1, before[i]);
        assert before[i] in before;
        var c :| 0 <= c < k - 1 && before[i] in lists[c];
      }
    }
  }

  lemma RowsDisjoint(g: Gvt, pts: seq<Point>, cols: seq<Column>)
    requires Curtain(g) && SortedKeys(cols)
    ensures Disjoint(RowLists(g, pts, cols), |pts|)
  {
    var lists := RowLists(g, pts, cols);
    forall c, d, i, j | 0 <= c < d < |lists| && 0 <= i < |lists[c]| && 0 <= j < |lists[d]|
      ensures lists[c][i] != lists[d][j]
    {
      assert PairLess(cols[c].key, cols[d].key);
      assert Key(g, pts[lists[c][i]]) == cols[c].key && Key(g, pts[lists[d][j]]) == cols[d].key;
    }
  }

  /** The rows of the first n columns. */
  function RowCount(cols: seq<Column>, n: nat): nat
    requires n <= |cols|
  {
    if n == 0 then 0 else RowCount(cols, n - 1) + |cols[n - 1].coordinates|
  }

  lemma {:induction false} RowsCounted(lists: seq<seq<nat>>, cols: seq<Column>, n: nat)
    requires n <= |cols| == |lists|
    requires forall c :: 0 <= c < |cols| ==> |lists[c]| == |cols[c].coordinates| > 0
    ensures n <= |FlattenTo(lists, n)| == RowCount(cols, n)
  {
    if n > 0 {
      RowsCounted(lists, cols, n - 1);
    }
  }

  lemma ColumnHasRows(g: Gvt, pts: seq<Point>, col: Column)
    requires Curtain(g) && IsColumn(g, pts, |pts|, col)
    ensures |Rows(g, pts, col.key, |pts|)| == |col.coordinates| > 0
  {}

  lemma RowsBound(g: Gvt, pts: seq<Point>, cols: seq<Column>)
    requires Curtain(g) && IsColumns(g, pts, |pts|, cols)
    ensures |cols| <= RowCount(cols, |cols|) <= |pts|
  {
    var lists := RowLists(g, pts, cols);
    RowsDisjoint(g, pts, cols);
    FlattenDistinct(lists, |pts|, |cols|);
    DistinctBound(FlattenTo(lists, |cols|), |pts|);
    forall c | 0 <= c < |cols|
      ensures |lists[c]| == |cols[c].coordinates| > 0
    {
      ColumnHasRows(g, pts, cols[c]);
    }
    RowsCounted(lists, cols, |cols|);
  }

  /*
   * The fragments of a column share the depth
   */

  /** The depth above layer z. */
  function Above(g: Gvt, z: nat): nat
    requires Curtain(g)
  {
    MulMono(0, z, g.frag[2]);
    Min(z * g.frag[2], g.cube[2])
  }

  lemma AboveNext(g: Gvt, s: Single)
    requires Curtain(g) && |s.id| == 3 && s.id[2] < g.FragmentCount(2)
    ensures Above(g, s.id[2] + 1) == Above(g, s.id[2]) + Depth(g, s.id)
  {
    RealExtent(g.cube[2], g.frag[2], s.id[2]);
    MulDistrib(s.id[2], 1, g.frag[2]);
  }

  lemma AboveAll(g: Gvt)
    requires Curtain(g)
    ensures Above(g, 0) == 0 && Above(g, g.FragmentCount(2)) == g.cube[2]
    ensures 0 < g.FragmentCount(2) <= g.cube[2]
  {
    var h := g.FragmentCount(2);
    CountIs(g.cube[2], g.frag[2]);
    GlobalToLocal(g.cube[2], g.frag[2], 0);
    RealExtent(g.cube[2], g.frag[2], h - 1);
    MulDistrib(h - 1, 1, g.frag[2]);
    MulMono(1, g.frag[2], h - 1);
  }

  /** One more fragment of a column with n rows. */
  lemma LayerSize(g: Gvt, s: Single)
    requires Curtain(g) && |s.id| == 3 && s.id[2] < g.FragmentCount(2)
    ensures |s.coordinates| * Above(g, s.id[2]) + SegmentSize(g, s) == |s.coordinates| * Above(g, s.id[2] + 1)
  {
    AboveNext(g, s);
    MulDistrib(Above(g, s.id[2]), Depth(g, s.id), |s.coordinates|);
  }

  ghost predicate Threes(ids: seq<Single>) {
    forall i :: 0 <= i < |ids| ==> |ids[i].id| == 3
  }

  /** The prefix sums inside a column. */
  lemma {:induction false} BlockStart(g: Gvt, ids: seq<Single>, k: nat, col: Column, h: nat, z: nat)
    requires Curtain(g) && Threes(ids) && h == g.FragmentCount(2) && z <= h
    requires k + h <= |ids| && ids[k..k + h] == Block(col, h)
    ensures Start(g, ids, k + z) == Start(g, ids, k) + |col.coordinates| * Above(g, z)
  {
    if z == 0 {
      AboveAll(g);
      assert |col.coordinates| * 0 == 0;
    } else {
      BlockStart(g, ids, k, col, h, z - 1);
      assert ids[k + (z - 1)] == ids[k..k + h][z - 1] == Block(col, h)[z - 1];
      LayerSize(g, ids[k + (z - 1)]);
    }
  }

  lemma WholeBlock(g: Gvt, ids: seq<Single>, k: nat, col: Column, h: nat)
    requires Curtain(g) && Threes(ids) && h == g.FragmentCount(2)
    requires k + h <= |ids| && ids[k..k + h] == Block(col, h)
    ensures Start(g, ids, k + h) == Start(g, ids, k) + |col.coordinates| * g.cube[2]
  {
    BlockStart(g, ids, k, col, h, h);
    AboveAll(g);
  }

  /** Fragments k up to k + h are those of a column. */
  lemma ColumnAt(cols: seq<Column>, h: nat, c: nat, k: int)
    requires c < |cols| && k + h == (c + 1) * h
    ensures 0 <= k == c * h && k + h <= |Expand(cols, h)|
    ensures Expand(cols, h)[k..k + h] == Block(cols[c], h)
  {
    MulDistrib(c, 1, h);
    ExpandAround(cols, h, c);
  }

  lemma ColumnTurn(g: Gvt, cols: seq<Column>, ids: seq<Single>, h: nat, c: nat, k: nat)
    requires Curtain(g) && Threes(ids) && h == g.FragmentCount(2) && c < |cols|
    requires k + h <= |ids| && ids[k..k + h] == Block(cols[c], h)
    requires Start(g, ids, k) == RowCount(cols, c) * g.cube[2]
    ensures Start(g, ids, k + h) == RowCount(cols, c + 1) * g.cube[2]
  {
    WholeBlock(g, ids, k, cols[c], h);
    MulDistrib(RowCount(cols, c), |cols[c].coordinates|, g.cube[2]);
  }

  /** The prefix sums between the columns. */
  lemma {:induction false} ColumnStart(g: Gvt, cols: seq<Column>, ids: seq<Single>, h: nat, c: nat, k: nat)
    requires Curtain(g) && Threes(ids) && h == g.FragmentCount(2) && ids == Expand(cols, h)
    requires c <= |cols| && k == c * h <= |ids|
    ensures Start(g, ids, k) == RowCount(cols, c) * g.cube[2]
  {
    if c > 0 {
      ColumnAt(cols, h, c - 1, k - h);
      ColumnStart(g, cols, ids, h, c - 1, k - h);
      ColumnTurn(g, cols, ids, h, c - 1, k - h);
    }
  }

  /** Neither the samples nor the fragments are more than rows times depth. */
  lemma PlannedSize(g: Gvt, pts: seq<Point>, cols: seq<Column>, ids: seq<Single>)
    requires Curtain(g) && IsColumns(g, pts, |pts|, cols) && ids == Expand(cols, g.FragmentCount(2)) && Threes(ids)
    ensures Start(g, ids, |ids|) <= |pts| * g.cube[2] && |ids| <= |pts| * g.cube[2]
  {
    var h, n := g.FragmentCount(2), |cols|;
    ExpandLength(cols, h);
    ColumnStart(g, cols, ids, h, n, |ids|);
    AboveAll(g);
    RowsBound(g, pts, cols);
    NoMore(n, RowCount(cols, n), |pts|, h, g.cube[2]);
  }

  lemma NoMore(n: nat, r: nat, rows: nat, h: nat, depth: nat)
    requires n <= r <= rows && h <= depth
    ensures r * depth <= rows * depth && n * h <= rows * depth
  {
    MulMono(r, rows, depth);
    MulMono(n, rows, h);
    MulMono(h, depth, rows);
  }
}
