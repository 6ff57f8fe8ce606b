/**
 * How the decoder scatters a bundle in an output buffer: the slice and curtain
 * loops of core/src/decoder.cpp. The source does not check that a bundle stays
 * inside the buffer; TileFits and BodyFits say when it does.
 */
module Extraction {
  import opened Arith
  import opened Lists
  import opened Cells
  import opened Messages
  import opened Geometry

  /*
   * Slices
   */

  predicate RowReads(t: Tile, i: int) {
    && 0 <= t.chunkSize && 0 <= i * t.superstride + t.initialSkip
    && 0 <= i * t.substride && i * t.substride + t.chunkSize <= |t.v|
  }

  predicate TileReads(t: Tile) {
    forall i :: 0 <= i < t.iterations ==> RowReads(t, i)
  }

  /** Every row stays inside a buffer of n cells, and its positions fit in an int. */
  predicate TileFits(t: Tile, n: nat) {
    TileReads(t) && forall i :: 0 <= i < t.iterations ==> RowEnd(t, i) <= n && RowInt(t, i)
  }

  predicate RowInt(t: Tile, i: int) {
    i * t.superstride + t.initialSkip <= INT_MAX && i * t.substride <= INT_MAX
  }

  function RowEnd(t: Tile, i: int): int {
    i * t.superstride + t.initialSkip + t.chunkSize
  }

  function RowWrites(t: Tile, i: int): (r: seq<Write>)
    requires RowReads(t, i)
    ensures |r| == t.chunkSize
  {
    Chunk(i * t.superstride + t.initialSkip, t.v, i * t.substride, t.chunkSize)
  }

  function Rows(t: Tile, n: nat): (r: seq<seq<Write>>)
    requires TileReads(t) && (n == 0 || n <= t.iterations)
    ensures |r| == n
  {
    seq(n, i requires 0 <= i < n => RowWrites(t, i))
  }

  /** The cells a tile writes, row by row. */
  function TileWrites(t: Tile): seq<Write>
    requires TileReads(t)
  {
    Flatten(Rows(t, Max(0, t.iterations)))
  }

  predicate TilesFit(tiles: seq<Tile>, n: nat) {
    forall k :: 0 <= k < |tiles| ==> TileFits(tiles[k], n)
  }

  function TilePieces(tiles: seq<Tile>): (r: seq<seq<Write>>)
    requires forall k :: 0 <= k < |tiles| ==> TileReads(tiles[k])
    ensures |r| == |tiles|
  {
    seq(|tiles|, k requires 0 <= k < |tiles| => TileWrites(tiles[k]))
  }

  function SliceWrites(tiles: seq<Tile>): seq<Write>
    requires forall k :: 0 <= k < |tiles| ==> TileReads(tiles[k])
  {
    Flatten(TilePieces(tiles))
  }

  lemma TileInBounds(t: Tile, n: nat)
    requires TileFits(t, n)
    ensures InBounds(TileWrites(t), n)
  {
    var rows := Rows(t, Max(0, t.iterations));
    forall i | 0 <= i < |rows|
      ensures InBounds(rows[i], n)
    {
      assert RowEnd(t, i) <= n;
    }
    FlattenInBounds(rows, n);
  }

  lemma SliceInBounds(tiles: seq<Tile>, n: nat)
    requires TilesFit(tiles, n)
    ensures InBounds(SliceWrites(tiles), n)
  {
    forall k | 0 <= k < |tiles|
      ensures InBounds(TilePieces(tiles)[k], n)
    {
      TileInBounds(tiles[k], n);
    }
    FlattenInBounds(TilePieces(tiles), n);
  }

  lemma RowsSnoc(t: Tile, i: nat)
    requires TileReads(t) && i < t.iterations
    ensures Rows(t, i + 1) == Rows(t, i) + [RowWrites(t, i)]
    ensures Flatten(Rows(t, i + 1)) == Flatten(Rows(t, i)) + RowWrites(t, i)
  {
    FlattenSnoc(Rows(t, i), RowWrites(t, i));
    assert Rows(t, i + 1) == Rows(t, i) + [RowWrites(t, i)];
  }

  /** One memcpy into the output. */
  method CopyChunk(dst: array<Sample>, at: nat, src: seq<Sample>, from: nat, n: nat)
    requires at + n <= dst.Length && from + n <= |src|
    modifies dst
    ensures InBounds(Chunk(at, src, from, n), dst.Length)
    ensures dst[..] == Apply(old(dst[..]), Chunk(at, src, from, n))
  {
    Memcpy(dst, at, src, from, n);
    ApplyChunk(old(dst[..]), at, src, from, n);
    CopyIsSplice(old(dst[..]), at, n);
  }

  method CopyRow(dst: array<Sample>, t: Tile, i: nat)
    requires RowReads(t, i) && RowEnd(t, i) <= dst.Length && RowInt(t, i)
    modifies dst
    ensures InBounds(RowWrites(t, i), dst.Length)
    ensures dst[..] == Apply(old(dst[..]), RowWrites(t, i))
  {
    var at := IntProductSum(i, t.superstride, t.initialSkip);
    var from := IntProductSum(i, t.substride, 0);
    CopyChunk(dst, at, t.v, from, t.chunkSize);
  }

  /** Reducing to an int in between makes no difference to a sum that is reduced in the end. */
  lemma ToIntSum(a: int, b: int)
    ensures ToInt(ToInt(a) + b) == ToInt(a + b)
  {
    assert (ToInt(a) - a) % INT_RANGE == 0;
  }

  /** a * b + c in int arithmetic. */
  method IntProductSum(a: int, b: int, c: int) returns (r: int)
    requires 0 <= a * b + c <= INT_MAX
    ensures r == a * b + c
  {
    var product := ToInt(a * b);
    r := ToInt(product + c);
    ToIntSum(a * b, c);
  }

  lemma CopyIsSplice(buf: seq<Sample>, at: nat, n: nat)
    requires at + n <= |buf|
    ensures buf[..][..at] == buf[..at] && buf[..][at + n..] == buf[at + n..]
  {}

  method ExtractTile(dst: array<Sample>, t: Tile)
    requires TileFits(t, dst.Length)
    modifies dst
    ensures InBounds(TileWrites(t), dst.Length)
    ensures dst[..] == Apply(old(dst[..]), TileWrites(t))
  {
    var i := 0;
    while i < t.iterations
      invariant 0 <= i <= Max(0, t.iterations)
      invariant InBounds(Flatten(Rows(t, i)), dst.Length)
      invariant dst[..] == Apply(old(dst[..]), Flatten(Rows(t, i)))
    {
      assert RowReads(t, i) && RowEnd(t, i) <= dst.Length && RowInt(t, i);
      CopyRow(dst, t, i);
      RowsSnoc(t, i);
      ApplyConcat(old(dst[..]), Flatten(Rows(t, i)), RowWrites(t, i));
      i := i + 1;
    }
  }

  lemma PiecesSnoc(tiles: seq<Tile>, k: nat)
    requires k < |tiles| && forall j :: 0 <= j < |tiles| ==> TileReads(tiles[j])
    ensures SliceWrites(tiles[..k + 1]) == SliceWrites(tiles[..k]) + TileWrites(tiles[k])
  {
    assert TilePieces(tiles[..k + 1]) == TilePieces(tiles[..k]) + [TileWrites(tiles[k])];
    FlattenSnoc(TilePieces(tiles[..k]), TileWrites(tiles[k]));
  }

  /** decoder::slice, once the writer is found. */
  method ExtractSlice(dst: array<Sample>, tiles: seq<Tile>)
    requires TilesFit(tiles, dst.Length)
    modifies dst
    ensures InBounds(SliceWrites(tiles), dst.Length)
    ensures dst[..] == Apply(old(dst[..]), SliceWrites(tiles))
  {
    for k := 0 to |tiles|
      invariant InBounds(SliceWrites(tiles[..k]), dst.Length)
      invariant dst[..] == Apply(old(dst[..]), SliceWrites(tiles[..k]))
    {
      ExtractTile(dst, tiles[k]);
      PiecesSnoc(tiles, k);
      ApplyConcat(old(dst[..]), SliceWrites(tiles[..k]), TileWrites(tiles[k]));
    }
    assert tiles[..|tiles|] == tiles;
  }

  /*
   * Curtains
   */

  datatype Run = Run(ifst: int, ilst: int, zfst: int, zlst: int) {
    function Depth(): int {
      zlst - zfst
    }

    function Size(): int {
      (zlst - zfst) * (ilst - ifst)
    }
  }

  function RunAt(b: CurtainBody, n: int): Run
    requires 0 <= n && 2 * n + 1 < |b.major| && 2 * n + 1 < |b.minor|
  {
    Run(b.major[n * 2 + 0], b.major[n * 2 + 1], b.minor[n * 2 + 0], b.minor[n * 2 + 1])
  }

  predicate RunsListed(b: CurtainBody) {
    b.size <= 0 || (2 * b.size <= |b.major| && 2 * b.size <= |b.minor|)
  }

  /** Where in the values run n starts. */
  function RunStart(b: CurtainBody, n: nat): int
    requires RunsListed(b) && (n == 0 || n <= b.size)
  {
    if n == 0 then 0 else RunStart(b, n - 1) + RunAt(b, n - 1).Size()
  }

  /** Trace m of a run, whose traces start at src. */
  predicate TraceReads(b: CurtainBody, run: Run, src: int, m: int) {
    && 0 <= run.Depth() && 0 <= (run.ifst + m) * b.zlength + run.zfst
    && 0 <= src + run.Depth() * m && src + run.Depth() * m + run.Depth() <= |b.values|
  }

  predicate RunReads(b: CurtainBody, n: nat)
    requires RunsListed(b) && n < b.size
  {
    forall m :: 0 <= m < RunAt(b, n).ilst - RunAt(b, n).ifst ==> TraceReads(b, RunAt(b, n), RunStart(b, n), m)
  }

  predicate BodyReads(b: CurtainBody) {
    RunsListed(b) && forall n: nat :: n < b.size ==> RunReads(b, n)
  }

  function TraceWrites(b: CurtainBody, run: Run, src: int, m: nat): (r: seq<Write>)
    requires TraceReads(b, run, src, m)
    ensures |r| == run.Depth()
  {
    Chunk((run.ifst + m) * b.zlength + run.zfst, b.values, src + run.Depth() * m, run.Depth())
  }

  function Traces(b: CurtainBody, n: nat, count: nat): (r: seq<seq<Write>>)
    requires RunsListed(b) && n < b.size && RunReads(b, n)
    requires count == 0 || count <= RunAt(b, n).ilst - RunAt(b, n).ifst
    ensures |r| == count
  {
    seq(count, m requires 0 <= m < count => TraceWrites(b, RunAt(b, n), RunStart(b, n), m))
  }

  function RunWrites(b: CurtainBody, n: nat): seq<Write>
    requires RunsListed(b) && n < b.size && RunReads(b, n)
  {
    Flatten(Traces(b, n, Max(0, RunAt(b, n).ilst - RunAt(b, n).ifst)))
  }

  function RunPieces(b: CurtainBody, count: nat): (r: seq<seq<Write>>)
    requires BodyReads(b) && (count == 0 || count <= b.size)
    ensures |r| == count
  {
    seq(count, n requires 0 <= n < count => RunWrites(b, n))
  }

  /** The cells a curtain bundle writes, run by run. */
  function CurtainWrites(b: CurtainBody): seq<Write>
    requires BodyReads(b)
  {
    Flatten(RunPieces(b, Max(0, b.size)))
  }

  function TraceEnd(b: CurtainBody, run: Run, m: int): int {
    (run.ifst + m) * b.zlength + run.zlst
  }

  function TraceAt(b: CurtainBody, run: Run, m: int): int {
    (run.ifst + m) * b.zlength + run.zfst
  }

  /** Every trace stays inside a buffer of len cells, and its position fits in an int. */
  predicate RunFits(b: CurtainBody, n: nat, len: nat)
    requires RunsListed(b) && n < b.size
  {
    RunReads(b, n) && forall m :: 0 <= m < RunAt(b, n).ilst - RunAt(b, n).ifst ==> TraceFits(b, RunAt(b, n), m, len)
  }

  predicate TraceFits(b: CurtainBody, run: Run, m: int, len: nat) {
    TraceEnd(b, run, m) <= len && TraceAt(b, run, m) <= INT_MAX
  }

  predicate BodyFits(b: CurtainBody, len: nat) {
    BodyReads(b) && forall n: nat :: n < b.size ==> RunFits(b, n, len)
  }

  lemma TracesInBounds(b: CurtainBody, n: nat, count: nat, len: nat)
    requires RunsListed(b) && n < b.size && RunFits(b, n, len)
    requires count == 0 || count <= RunAt(b, n).ilst - RunAt(b, n).ifst
    ensures InBounds(Flatten(Traces(b, n, count)), len)
  {
    forall m | 0 <= m < count
      ensures InBounds(Traces(b, n, count)[m], len)
    {
      assert TraceReads(b, RunAt(b, n), RunStart(b, n), m) && TraceFits(b, RunAt(b, n), m, len);
    }
    FlattenInBounds(Traces(b, n, count), len);
  }

  lemma CurtainInBounds(b: CurtainBody, count: nat, len: nat)
    requires BodyFits(b, len) && (count == 0 || count <= b.size)
    ensures InBounds(Flatten(RunPieces(b, count)), len)
  {
    forall n | 0 <= n < count
      ensures InBounds(RunPieces(b, count)[n], len)
    {
      TracesInBounds(b, n, Max(0, RunAt(b, n).ilst - RunAt(b, n).ifst), len);
    }
    FlattenInBounds(RunPieces(b, count), len);
  }

  lemma TracesSnoc(b: CurtainBody, n: nat, m: nat)
    requires RunsListed(b) && n < b.size && RunReads(b, n) && m < RunAt(b, n).ilst - RunAt(b, n).ifst
    ensures Flatten(Traces(b, n, m + 1)) == Flatten(Traces(b, n, m)) + TraceWrites(b, RunAt(b, n), RunStart(b, n), m)
  {
    var trace := TraceWrites(b, RunAt(b, n), RunStart(b, n), m);
    FlattenSnoc(Traces(b, n, m), trace);
    assert Traces(b, n, m + 1) == Traces(b, n, m) + [trace];
  }

  method CopyTrace(dst: array<Sample>, b: CurtainBody, run: Run, src: int, m: nat)
    requires TraceReads(b, run, src, m) && TraceFits(b, run, m, dst.Length)
    modifies dst
    ensures InBounds(TraceWrites(b, run, src, m), dst.Length)
    ensures dst[..] == Apply(old(dst[..]), TraceWrites(b, run, src, m))
  {
    var Run(ifst, _, zfst, zlst) := run;
    var at := IntProductSum(ifst + m, b.zlength, zfst);
    var from := src + (zlst - zfst) * m;
    CopyChunk(dst, at, b.values, from, zlst - zfst);
  }

  /** The inner loop of decoder::curtain: the traces of one run, from src on. */
  method ExtractRun(dst: array<Sample>, b: CurtainBody, n: nat, src: int)
    requires RunsListed(b) && n < b.size && RunFits(b, n, dst.Length) && src == RunStart(b, n)
    modifies dst
    ensures InBounds(RunWrites(b, n), dst.Length)
    ensures dst[..] == Apply(old(dst[..]), RunWrites(b, n))
  {
    var run := RunAt(b, n);
    var chunk := 0;
    while run.ifst + chunk < run.ilst
      invariant 0 <= chunk <= Max(0, run.ilst - run.ifst)
      invariant InBounds(Flatten(Traces(b, n, chunk)), dst.Length)
      invariant dst[..] == Apply(old(dst[..]), Flatten(Traces(b, n, chunk)))
    {
      CopyTrace(dst, b, run, src, chunk);
      TracesSnoc(b, n, chunk);
      ApplyConcat(old(dst[..]), Flatten(Traces(b, n, chunk)), TraceWrites(b, run, src, chunk));
      chunk := chunk + 1;
    }
  }

  lemma RunsSnoc(b: CurtainBody, n: nat)
    requires BodyReads(b) && n < b.size
    ensures Flatten(RunPieces(b, n + 1)) == Flatten(RunPieces(b, n)) + RunWrites(b, n)
  {
    FlattenSnoc(RunPieces(b, n), RunWrites(b, n));
    assert RunPieces(b, n + 1) == RunPieces(b, n) + [RunWrites(b, n)];
  }

  /** The buffer after the first n runs. */
  ghost predicate RunsDone(b: CurtainBody, n: nat, before: seq<Sample>, now: seq<Sample>)
    requires BodyReads(b) && (n == 0 || n <= b.size)
  {
    InBounds(Flatten(RunPieces(b, n)), |before|) && now == Apply(before, Flatten(RunPieces(b, n)))
  }

  lemma OneMoreRun(b: CurtainBody, n: nat, before: seq<Sample>, now: seq<Sample>, after: seq<Sample>)
    requires BodyReads(b) && n < b.size && RunsDone(b, n, before, now)
    requires InBounds(RunWrites(b, n), |now|) && after == Apply(now, RunWrites(b, n))
    ensures RunsDone(b, n + 1, before, after)
    ensures RunStart(b, n + 1) == RunStart(b, n) + RunAt(b, n).Size()
  {
    RunsSnoc(b, n);
    ApplyConcat(before, Flatten(RunPieces(b, n)), RunWrites(b, n));
  }

  /** decoder::curtain, once the writer is found. */
  method ExtractCurtain(dst: array<Sample>, b: CurtainBody)
    requires BodyFits(b, dst.Length)
    modifies dst
    ensures InBounds(CurtainWrites(b), dst.Length)
    ensures dst[..] == Apply(old(dst[..]), CurtainWrites(b))
  {
    var src := 0;
    var n := 0;
    while n < b.size
      invariant 0 <= n <= Max(0, b.size) && src == RunStart(b, n)
      invariant RunsDone(b, n, old(dst[..]), dst[..])
    {
      ghost var now := dst[..];
      ExtractRun(dst, b, n, src);
      OneMoreRun(b, n, old(dst[..]), now, dst[..]);
      src := src + RunAt(b, n).Size();
      n := n + 1;
    }
  }
}
