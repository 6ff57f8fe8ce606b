/**
 * The trace loop of python/oneseismic/upload/upload.py: the line scan, putting
 * traces in any order, and writing every lane out exactly once.
 */
module UploadRun {
  import opened Lists
  import opened Shapes
  import opened Geometry
  import opened Cells
  import opened Messages
  import opened Survey
  import opened Upload
  import opened FileSets
  import CurtainPlan
  import Queries

  /*
   * The last trace of every lane
   */

  /** The report of a scan: the last trace of every line. */
  ghost predicate ScanOf(traces: seq<Trace>, lines1: seq<LineNo>, last: map<LineNo, nat>) {
    && (forall k :: k in last <==> k in lines1)
    && (forall k :: k in last ==> LastTrace(Keys1(traces), |traces|, k) == Some(last[k]))
  }

  /** The limit of a lane is the number of one of its traces. */
  lemma LimitInLane(
    traces: seq<Trace>, lines1: seq<LineNo>, s: nat, keys: map<LineNo, nat>, offs: map<LineNo, nat>,
    last: map<LineNo, nat>, limits: map<nat, nat>, i: nat)
    requires Queries.Sorted(lines1) && Numbered(lines1, s, keys, offs) && ScanOf(traces, lines1, last)
    requires MaxOf(keys, last, last.Keys, limits) && i in limits
    ensures i < Count(|lines1|, s) && InLane(traces, lines1, s, limits[i], i)
  {
    assert LimitIsLast(keys, last, last.Keys, limits[i], i);
    var k :| k in last && k in keys && keys[k] == i && last[k] == limits[i];
    LastTraceIs(Keys1(traces), |traces|, k);
    LaneOfLine(lines1, s, keys, offs, k);
  }

  /** No trace of the lane comes later. */
  lemma LimitIsLatest(
    traces: seq<Trace>, lines1: seq<LineNo>, s: nat, keys: map<LineNo, nat>, offs: map<LineNo, nat>,
    last: map<LineNo, nat>, limits: map<nat, nat>, m: nat, i: nat)
    requires Queries.Sorted(lines1) && Numbered(lines1, s, keys, offs) && ScanOf(traces, lines1, last)
    requires MaxOf(keys, last, last.Keys, limits) && i in limits && InLane(traces, lines1, s, m, i)
    ensures m <= limits[i]
  {
    var k := traces[m].key1;
    LaneOfLine(lines1, s, keys, offs, k);
    LastTraceIs(Keys1(traces), |traces|, k);
    assert Keys1(traces)[m] == k;
  }

  lemma LaneLimitIsLast(
    traces: seq<Trace>, lines1: seq<LineNo>, s: nat, keys: map<LineNo, nat>, offs: map<LineNo, nat>,
    last: map<LineNo, nat>, limits: map<nat, nat>, i: nat)
    requires Queries.Sorted(lines1) && Numbered(lines1, s, keys, offs) && ScanOf(traces, lines1, last)
    requires MaxOf(keys, last, last.Keys, limits) && i in limits
    ensures i < Count(|lines1|, s) && LastOfLane(traces, lines1, s, limits[i], i)
  {
    LimitInLane(traces, lines1, s, keys, offs, last, limits, i);
    forall m | InLane(traces, lines1, s, m, i)
      ensures m <= limits[i]
    {
      LimitIsLatest(traces, lines1, s, keys, offs, last, limits, m, i);
    }
  }

  /** Every lane has a limit. */
  lemma LaneHasLimit(
    lines1: seq<LineNo>, s: nat, keys: map<LineNo, nat>, offs: map<LineNo, nat>, last: map<LineNo, nat>,
    limits: map<nat, nat>, i: nat)
    requires Numbered(lines1, s, keys, offs) && (forall k :: k in last <==> k in lines1)
    requires MaxOf(keys, last, last.Keys, limits) && i < Count(|lines1|, s)
    ensures i in limits
  {
    RealExtent(|lines1|, s, i);
    LocalToGlobal(|lines1|, s, i, 0);
    assert NumberedAt(lines1, s, keys, offs, i * s);
    assert lines1[i * s] in last;
  }

  lemma LimitsAreLast(
    traces: seq<Trace>, lines1: seq<LineNo>, s: nat, keys: map<LineNo, nat>, offs: map<LineNo, nat>,
    last: map<LineNo, nat>, limits: map<nat, nat>)
    requires Queries.Sorted(lines1) && Numbered(lines1, s, keys, offs)
    requires ScanOf(traces, lines1, last) && MaxOf(keys, last, last.Keys, limits)
    ensures forall i :: i in limits ==> i < Count(|lines1|, s) && LastOfLane(traces, lines1, s, limits[i], i)
  {
    forall i | i in limits
      ensures i < Count(|lines1|, s) && LastOfLane(traces, lines1, s, limits[i], i)
    {
      LaneLimitIsLast(traces, lines1, s, keys, offs, last, limits, i);
    }
  }

  lemma LanesHaveLimits(
    lines1: seq<LineNo>, s: nat, keys: map<LineNo, nat>, offs: map<LineNo, nat>,
    last: map<LineNo, nat>, limits: map<nat, nat>)
    requires Numbered(lines1, s, keys, offs) && (forall k :: k in last <==> k in lines1)
    requires MaxOf(keys, last, last.Keys, limits)
    ensures forall i: nat :: i < Count(|lines1|, s) ==> i in limits
  {
    forall i: nat | i < Count(|lines1|, s)
      ensures i in limits
    {
      LaneHasLimit(lines1, s, keys, offs, last, limits, i);
    }
  }

  /** What setlimits finds, given the report of a scan of the same traces. */
  lemma LaneLimits(
    traces: seq<Trace>, lines1: seq<LineNo>, s: nat, keys: map<LineNo, nat>, offs: map<LineNo, nat>,
    last: map<LineNo, nat>, limits: map<nat, nat>)
    requires Queries.Sorted(lines1) && Numbered(lines1, s, keys, offs)
    requires ScanOf(traces, lines1, last) && MaxOf(keys, last, last.Keys, limits)
    ensures LimitsAre(traces, lines1, s, limits)
  {
    LimitsAreLast(traces, lines1, s, keys, offs, last, limits);
    LanesHaveLimits(lines1, s, keys, offs, last, limits);
  }

  lemma LaneOfLine(lines: seq<LineNo>, s: nat, keys: map<LineNo, nat>, offs: map<LineNo, nat>, k: LineNo)
    requires Numbered(lines, s, keys, offs) && k in lines && Queries.Sorted(lines)
    ensures k in keys && keys[k] == PositionOf(lines, k) / s < Count(|lines|, s)
  {
    assert NumberedAt(lines, s, keys, offs, PositionOf(lines, k));
    GlobalToLocal(|lines|, s, PositionOf(lines, k));
  }

  /** The lane is written out after its last trace. */
  predicate Done(limits: map<nat, nat>, n: nat, i: nat) {
    i in limits && limits[i] < n
  }

  /** What every fragment should hold. */
  type Content = Tuple -> seq<Sample>

  predicate Holds(files: Files, size: nat, now: Content, f: Tuple) {
    GetFile(files, f, size) == now(f)
  }

  /**
   * After n traces: the fragments of lanes that are done were written out, once
   * each, with all that the survey has for them; the others are in the making.
   */
  ghost predicate Progress(
    counts: Tuple, size: nat, limits: map<nat, nat>, n: nat, now: Content, whole: Content,
    files: Files, log: seq<(Tuple, seq<Sample>)>)
    requires |counts| == 3
  {
    && DistinctIds(Ids(log)) && FilesFit(files, size)
    && (forall f :: f in Ids(log) ==> InShape(f, counts) && Done(limits, n, f[0]))
    && (forall a :: 0 <= a < |log| ==> log[a].1 == whole(log[a].0))
    && (forall f :: InShape(f, counts) ==> if Done(limits, n, f[0]) then f in Ids(log) else Holds(files, size, now, f))
  }

  /** A trace is put, and its lane is not yet committed. */
  ghost predicate PutDone(counts: Tuple, size: nat, limits: map<nat, nat>, n: nat, next: Content, files: Files)
    requires |counts| == 3
  {
    FilesFit(files, size) && forall f :: InShape(f, counts) && !Done(limits, n, f[0]) ==> Holds(files, size, next, f)
  }

  /** The files that commit hands out are those of the lane, if the trace is the lane's last. */
  ghost predicate LaneOut(
    counts: Tuple, size: nat, last: bool, lane: nat, before: Files, after: Files, out: seq<(Tuple, seq<Sample>)>)
    requires |counts| == 3
  {
    && TakenOut(before, after, out, size)
    && forall f: Tuple :: f in Ids(out) <==> last && InShape(f, counts) && f[0] == lane
  }

  /** Trace n is one of the lane, which is done after it if it is the last. */
  ghost predicate OnLane(limits: map<nat, nat>, n: nat, lane: nat, last: bool) {
    !Done(limits, n, lane) && forall i :: Done(limits, n + 1, i) <==> Done(limits, n, i) || (last && i == lane)
  }

  lemma LogMore(log: seq<(Tuple, seq<Sample>)>, out: seq<(Tuple, seq<Sample>)>)
    requires DistinctIds(Ids(log)) && DistinctIds(Ids(out)) && forall f :: f in Ids(log) ==> f !in Ids(out)
    ensures Ids(log + out) == Ids(log) + Ids(out) && DistinctIds(Ids(log + out))
  {
    assert Ids(log + out) == Ids(log) + Ids(out);
    forall a, b | 0 <= a < b < |log + out|
      ensures Ids(log + out)[a] != Ids(log + out)[b]
    {
      if a < |log| <= b {
        assert Ids(log)[a] in Ids(log) && Ids(out)[b - |log|] in Ids(out);
      }
    }
  }

  /** What is handed out is complete. */
  lemma LaneOutComplete(
    counts: Tuple, size: nat, limits: map<nat, nat>, n: nat, lane: nat, last: bool, next: Content, whole: Content,
    before: Files, after: Files, out: seq<(Tuple, seq<Sample>)>, a: nat)
    requires |counts| == 3 && OnLane(limits, n, lane, last) && PutDone(counts, size, limits, n, next, before)
    requires LaneOut(counts, size, last, lane, before, after, out) && a < |out|
    requires forall f :: InShape(f, counts) && Done(limits, n + 1, f[0]) ==> next(f) == whole(f)
    ensures InShape(out[a].0, counts) && Done(limits, n + 1, out[a].0[0]) && out[a].1 == whole(out[a].0)
  {
    var f := out[a].0;
    assert Ids(out)[a] in Ids(out);
    assert Holds(before, size, next, f);
  }

  /** One round of the trace loop. */
  lemma CommitProgress(
    counts: Tuple, size: nat, limits: map<nat, nat>, n: nat, lane: nat, last: bool, now: Content, next: Content,
    whole: Content, files: Files, log: seq<(Tuple, seq<Sample>)>, before: Files, after: Files,
    out: seq<(Tuple, seq<Sample>)>)
    requires |counts| == 3 && OnLane(limits, n, lane, last)
    requires Progress(counts, size, limits, n, now, whole, files, log)
    requires PutDone(counts, size, limits, n, next, before) && LaneOut(counts, size, last, lane, before, after, out)
    requires forall f :: InShape(f, counts) && Done(limits, n + 1, f[0]) ==> next(f) == whole(f)
    ensures Progress(counts, size, limits, n + 1, next, whole, after, log + out)
  {
    forall a | 0 <= a < |out|
      ensures InShape(out[a].0, counts) && Done(limits, n + 1, out[a].0[0]) && out[a].1 == whole(out[a].0)
    {
      LaneOutComplete(counts, size, limits, n, lane, last, next, whole, before, after, out, a);
    }
    LogMore(log, out);
    forall f | f in Ids(log + out)
      ensures InShape(f, counts) && Done(limits, n + 1, f[0])
    {
      if f in Ids(out) {
        var a :| 0 <= a < |out| && Ids(out)[a] == f;
      }
    }
    forall f | InShape(f, counts)
      ensures if Done(limits, n + 1, f[0]) then f in Ids(log + out) else Holds(after, size, next, f)
    {
      if !Done(limits, n, f[0]) {
        assert Holds(before, size, next, f);
      }
    }
  }

  /*
   * The same, for the fragments of a survey
   */

  /** What the fragments hold after n traces. */
  ghost function ContentAfter(g: Gvt, traces: seq<Trace>, n: nat, lines1: seq<LineNo>, lines2: seq<LineNo>): Content
    requires g.Valid() && n <= |traces|
  {
    f =>
      if g.Valid() && n <= |traces| && |f| == |g.cube|
      then Fragmented(g, SurveyCube(traces, n, lines1, lines2), f)
      else []
  }

  /** Nothing is written, and an empty cube has empty fragments. */
  lemma ProgressInit(g: Gvt, traces: seq<Trace>, lines1: seq<LineNo>, lines2: seq<LineNo>, limits: map<nat, nat>)
    requires CurtainPlan.Curtain(g)
    ensures Progress(g.Counts(), Prod(g.frag), limits, 0, ContentAfter(g, traces, 0, lines1, lines2),
              ContentAfter(g, traces, |traces|, lines1, lines2), map[], [])
  {
    forall f | InShape(f, g.Counts())
      ensures ContentAfter(g, traces, 0, lines1, lines2)(f) == ZeroSamples(Prod(g.frag))
    {
      EmptyCube(g, traces, lines1, lines2, f);
    }
    NothingWritten(g.Counts(), Prod(g.frag), limits, ContentAfter(g, traces, 0, lines1, lines2),
      ContentAfter(g, traces, |traces|, lines1, lines2));
  }

  lemma NothingWritten(counts: Tuple, size: nat, limits: map<nat, nat>, now: Content, whole: Content)
    requires |counts| == 3 && forall f :: InShape(f, counts) ==> now(f) == ZeroSamples(size)
    ensures Progress(counts, size, limits, 0, now, whole, map[], [])
  {
    assert Ids([]) == [];
    forall f | InShape(f, counts)
      ensures Holds(map[], size, now, f)
    {}
  }

  lemma EmptyCube(g: Gvt, traces: seq<Trace>, lines1: seq<LineNo>, lines2: seq<LineNo>, f: Tuple)
    requires g.Valid() && |f| == |g.cube|
    ensures Fragmented(g, SurveyCube(traces, 0, lines1, lines2), f) == ZeroSamples(Prod(g.frag))
  {
    var cube := SurveyCube(traces, 0, lines1, lines2);
    forall o | 0 <= o < Prod(g.frag)
      ensures Fragmented(g, cube, f)[o] == 0
    {
      assert cube(g.Global(f, PointAt(o, g.frag))) == 0;
    }
  }

  /** After the last trace of a lane, its fragments do not change any more. */
  lemma {:induction false} LaneFrozen(
    traces: seq<Trace>, lines1: seq<LineNo>, lines2: seq<LineNo>, depth: nat, shape: Tuple, limits: map<nat, nat>,
    n: nat, f: Tuple)
    requires SurveyValid(traces, lines1, lines2, depth) && |shape| == 3 && Positive(shape)
    requires LimitsAre(traces, lines1, shape[0], limits) && n <= |traces|
    requires |f| == 3 && Done(limits, n, f[0])
    ensures CurtainPlan.Curtain(SurveyGvt(lines1, lines2, depth, shape))
    ensures Fragmented(SurveyGvt(lines1, lines2, depth, shape), SurveyCube(traces, n, lines1, lines2), f)
            == Fragmented(SurveyGvt(lines1, lines2, depth, shape), SurveyCube(traces, |traces|, lines1, lines2), f)
    decreases |traces| - n
  {
    SurveyLines(traces, lines1, lines2, depth, 0);
    if n < |traces| {
      LaneFrozen(traces, lines1, lines2, depth, shape, limits, n + 1, f);
      NotInLane(traces, lines1, lines2, depth, shape, limits, n, f[0]);
      OtherLane(traces, lines1, lines2, depth, shape, n, f);
    }
  }

  /** A trace that comes after the last one of a lane is in another lane. */
  lemma NotInLane(
    traces: seq<Trace>, lines1: seq<LineNo>, lines2: seq<LineNo>, depth: nat, shape: Tuple, limits: map<nat, nat>,
    n: nat, i: nat)
    requires SurveyValid(traces, lines1, lines2, depth) && |shape| == 3 && Positive(shape)
    requires LimitsAre(traces, lines1, shape[0], limits) && n < |traces| && Done(limits, n, i)
    ensures !InLane(traces, lines1, shape[0], n, i)
  {
    assert LastOfLane(traces, lines1, shape[0], limits[i], i);
  }

  /** A trace changes no fragment of another lane. */
  lemma OtherLane(
    traces: seq<Trace>, lines1: seq<LineNo>, lines2: seq<LineNo>, depth: nat, shape: Tuple, n: nat, f: Tuple)
    requires SurveyValid(traces, lines1, lines2, depth) && |shape| == 3 && Positive(shape)
    requires n < |traces| && |f| == 3 && !InLane(traces, lines1, shape[0], n, f[0])
    ensures CurtainPlan.Curtain(SurveyGvt(lines1, lines2, depth, shape))
    ensures Fragmented(SurveyGvt(lines1, lines2, depth, shape), SurveyCube(traces, n + 1, lines1, lines2), f)
            == Fragmented(SurveyGvt(lines1, lines2, depth, shape), SurveyCube(traces, n, lines1, lines2), f)
  {
    NextCube(traces, lines1, lines2, depth, shape, n);
    OtherFragment(SurveyGvt(lines1, lines2, depth, shape), SurveyCube(traces, n, lines1, lines2),
      SurveyCube(traces, n + 1, lines1, lines2), PositionOf(lines1, traces[n].key1),
      PositionOf(lines2, traces[n].key2), traces[n].values, f);
  }

  /** Whatever is done one trace later was done before, or is the lane of the trace. */
  lemma DoneNext(traces: seq<Trace>, lines1: seq<LineNo>, s: nat, limits: map<nat, nat>, n: nat, lane: nat)
    requires LimitsAre(traces, lines1, s, limits) && InLane(traces, lines1, s, n, lane)
    ensures OnLane(limits, n, lane, lane in limits && limits[lane] == n)
  {
    if lane in limits {
      assert LastOfLane(traces, lines1, s, limits[lane], lane);
    }
    forall i | i in limits && limits[i] == n
      ensures i == lane
    {
      assert LastOfLane(traces, lines1, s, limits[i], i);
    }
  }

  lemma PutIsDone(
    traces: seq<Trace>, lines1: seq<LineNo>, lines2: seq<LineNo>, depth: nat, shape: Tuple, n: nat,
    limits: map<nat, nat>, files: Files, log: seq<(Tuple, seq<Sample>)>, after: Files)
    requires SurveyValid(traces, lines1, lines2, depth) && |shape| == 3 && Positive(shape) && n < |traces|
    requires CurtainPlan.Curtain(SurveyGvt(lines1, lines2, depth, shape))
    requires var g := SurveyGvt(lines1, lines2, depth, shape);
             Progress(g.Counts(), Prod(shape), limits, n, ContentAfter(g, traces, n, lines1, lines2),
               ContentAfter(g, traces, |traces|, lines1, lines2), files, log)
    requires traces[n].key1 in lines1 && traces[n].key2 in lines2
    requires after == PutSections(files, SurveyGvt(lines1, lines2, depth, shape), PositionOf(lines1, traces[n].key1),
                        PositionOf(lines2, traces[n].key2), traces[n].values,
                        SurveyGvt(lines1, lines2, depth, shape).FragmentCount(2))
    ensures var g := SurveyGvt(lines1, lines2, depth, shape);
            PutDone(g.Counts(), Prod(shape), limits, n, ContentAfter(g, traces, n + 1, lines1, lines2), after)
  {
    var g := SurveyGvt(lines1, lines2, depth, shape);
    forall f | InShape(f, g.Counts()) && !Done(limits, n, f[0])
      ensures Holds(after, Prod(shape), ContentAfter(g, traces, n + 1, lines1, lines2), f)
    {
      assert Holds(files, Prod(shape), ContentAfter(g, traces, n, lines1, lines2), f);
      PutFragmentProgress(traces, lines1, lines2, depth, shape, n, files, f);
    }
  }

  /** A fragment that is in the making, after the next trace is put. */
  lemma PutFragmentProgress(
    traces: seq<Trace>, lines1: seq<LineNo>, lines2: seq<LineNo>, depth: nat, shape: Tuple, n: nat, files: Files,
    f: Tuple)
    requires SurveyValid(traces, lines1, lines2, depth) && |shape| == 3 && Positive(shape) && n < |traces|
    requires CurtainPlan.Curtain(SurveyGvt(lines1, lines2, depth, shape))
    requires FilesFit(files, Prod(shape)) && InShape(f, SurveyGvt(lines1, lines2, depth, shape).Counts())
    requires GetFile(files, f, Prod(shape))
             == Fragmented(SurveyGvt(lines1, lines2, depth, shape), SurveyCube(traces, n, lines1, lines2), f)
    ensures traces[n].key1 in lines1 && traces[n].key2 in lines2
    ensures var g := SurveyGvt(lines1, lines2, depth, shape);
            GetFile(PutSections(files, g, PositionOf(lines1, traces[n].key1), PositionOf(lines2, traces[n].key2),
                traces[n].values, g.FragmentCount(2)), f, Prod(shape))
            == Fragmented(g, SurveyCube(traces, n + 1, lines1, lines2), f)
  {
    NextCube(traces, lines1, lines2, depth, shape, n);
    PutKeeps(files, SurveyGvt(lines1, lines2, depth, shape), SurveyCube(traces, n, lines1, lines2),
      SurveyCube(traces, n + 1, lines1, lines2), PositionOf(lines1, traces[n].key1), PositionOf(lines2, traces[n].key2),
      traces[n].values, f);
  }

  /** scan: the report of a file, from its binary header and all its traces. */
  method Scan(traces: seq<Trace>, samples: nat, interval: int) returns (r: Option<LineReport>)
    ensures r.Some? <==> interval != 0
    ensures r.Some? ==>
              && LinesAre(traces, r.value.lines1, r.value.lines2) && ScanOf(traces, r.value.lines1, r.value.last)
              && r.value.depths == Depths(samples, interval)
  {
    var scanner := new LineScanner();
    scanner.ScanBinaryHeader(samples, interval);
    for i := 0 to |traces|
      invariant scanner.Valid() && fresh(scanner)
      invariant scanner.samples == Some(samples) && scanner.interval == Some(interval)
      invariant scanner.seen1 == Keys1(traces)[..i] && scanner.seen2 == Keys2(traces)[..i]
    {
      scanner.ScanTraceHeader(traces[i].key1, traces[i].key2);
    }
    assert Keys1(traces)[..|traces|] == Keys1(traces) && Keys2(traces)[..|traces|] == Keys2(traces);
    r := scanner.Report();
  }

  lemma AllFrozen(
    traces: seq<Trace>, lines1: seq<LineNo>, lines2: seq<LineNo>, depth: nat, shape: Tuple, limits: map<nat, nat>,
    n: nat)
    requires SurveyValid(traces, lines1, lines2, depth) && |shape| == 3 && Positive(shape)
    requires LimitsAre(traces, lines1, shape[0], limits) && n <= |traces|
    requires CurtainPlan.Curtain(SurveyGvt(lines1, lines2, depth, shape))
    ensures var g := SurveyGvt(lines1, lines2, depth, shape);
            forall f :: InShape(f, g.Counts()) && Done(limits, n, f[0]) ==>
              ContentAfter(g, traces, n, lines1, lines2)(f) == ContentAfter(g, traces, |traces|, lines1, lines2)(f)
  {
    var g := SurveyGvt(lines1, lines2, depth, shape);
    forall f | InShape(f, g.Counts()) && Done(limits, n, f[0])
      ensures ContentAfter(g, traces, n, lines1, lines2)(f) == ContentAfter(g, traces, |traces|, lines1, lines2)(f)
    {
      LaneFrozen(traces, lines1, lines2, depth, shape, limits, n, f);
    }
  }

  /** The state of the loop after n traces. */
  ghost predicate After(
    g: Gvt, traces: seq<Trace>, n: nat, lines1: seq<LineNo>, lines2: seq<LineNo>, limits: map<nat, nat>, files: Files,
    log: seq<(Tuple, seq<Sample>)>)
    requires CurtainPlan.Curtain(g) && n <= |traces|
  {
    Progress(g.Counts(), Prod(g.frag), limits, n, ContentAfter(g, traces, n, lines1, lines2),
      ContentAfter(g, traces, |traces|, lines1, lines2), files, log)
  }

  /** The files after trace n is put. */
  ghost function PutTraceN(
    g: Gvt, traces: seq<Trace>, n: nat, lines1: seq<LineNo>, lines2: seq<LineNo>, files: Files): Files
    requires CurtainPlan.Curtain(g) && n < |traces| && |traces[n].values| == g.cube[2] && FilesFit(files, Prod(g.frag))
    requires traces[n].key1 in lines1 && traces[n].key2 in lines2
  {
    PutSections(files, g, PositionOf(lines1, traces[n].key1), PositionOf(lines2, traces[n].key2), traces[n].values,
      g.FragmentCount(2))
  }

  /** The limit of the lane is reached. */
  predicate LastOne(limits: map<nat, nat>, n: nat, lane: nat) {
    lane in limits && limits[lane] == n
  }

  /** One round of the loop keeps its state. */
  lemma RoundKeeps(
    traces: seq<Trace>, lines1: seq<LineNo>, lines2: seq<LineNo>, depth: nat, shape: Tuple, n: nat, lane: nat,
    limits: map<nat, nat>, files: Files, log: seq<(Tuple, seq<Sample>)>, after: Files, out: seq<(Tuple, seq<Sample>)>)
    requires SurveyValid(traces, lines1, lines2, depth) && |shape| == 3 && Positive(shape) && n < |traces|
    requires CurtainPlan.Curtain(SurveyGvt(lines1, lines2, depth, shape))
    requires LimitsAre(traces, lines1, shape[0], limits) && InLane(traces, lines1, shape[0], n, lane)
    requires traces[n].key1 in lines1 && traces[n].key2 in lines2
    requires After(SurveyGvt(lines1, lines2, depth, shape), traces, n, lines1, lines2, limits, files, log)
    requires var g := SurveyGvt(lines1, lines2, depth, shape);
             LaneOut(g.Counts(), Prod(shape), LastOne(limits, n, lane), lane,
               PutTraceN(g, traces, n, lines1, lines2, files), after, out)
    ensures After(SurveyGvt(lines1, lines2, depth, shape), traces, n + 1, lines1, lines2, limits, after, log + out)
  {
    var g := SurveyGvt(lines1, lines2, depth, shape);
    var put := PutTraceN(g, traces, n, lines1, lines2, files);
    PutIsDone(traces, lines1, lines2, depth, shape, n, limits, files, log, put);
    CommitKeeps(traces, lines1, lines2, depth, shape, n, lane, limits, files, log, put, after, out);
  }

  lemma CommitKeeps(
    traces: seq<Trace>, lines1: seq<LineNo>, lines2: seq<LineNo>, depth: nat, shape: Tuple, n: nat, lane: nat,
    limits: map<nat, nat>, files: Files, log: seq<(Tuple, seq<Sample>)>, put: Files, after: Files,
    out: seq<(Tuple, seq<Sample>)>)
    requires SurveyValid(traces, lines1, lines2, depth) && |shape| == 3 && Positive(shape) && n < |traces|
    requires CurtainPlan.Curtain(SurveyGvt(lines1, lines2, depth, shape))
    requires LimitsAre(traces, lines1, shape[0], limits) && InLane(traces, lines1, shape[0], n, lane)
    requires After(SurveyGvt(lines1, lines2, depth, shape), traces, n, lines1, lines2, limits, files, log)
    requires var g := SurveyGvt(lines1, lines2, depth, shape);
             && PutDone(g.Counts(), Prod(shape), limits, n, ContentAfter(g, traces, n + 1, lines1, lines2), put)
             && LaneOut(g.Counts(), Prod(shape), LastOne(limits, n, lane), lane, put, after, out)
    ensures After(SurveyGvt(lines1, lines2, depth, shape), traces, n + 1, lines1, lines2, limits, after, log + out)
  {
    DoneNext(traces, lines1, shape[0], limits, n, lane);
    AllFrozen(traces, lines1, lines2, depth, shape, limits, n + 1);
    CommitAfter(SurveyGvt(lines1, lines2, depth, shape), traces, lines1, lines2, n, lane, limits, files, log, put,
      after, out);
  }

  lemma CommitAfter(
    g: Gvt, traces: seq<Trace>, lines1: seq<LineNo>, lines2: seq<LineNo>, n: nat, lane: nat, limits: map<nat, nat>,
    files: Files, log: seq<(Tuple, seq<Sample>)>, put: Files, after: Files, out: seq<(Tuple, seq<Sample>)>)
    requires CurtainPlan.Curtain(g) && n < |traces| && OnLane(limits, n, lane, LastOne(limits, n, lane))
    requires After(g, traces, n, lines1, lines2, limits, files, log)
    requires PutDone(g.Counts(), Prod(g.frag), limits, n, ContentAfter(g, traces, n + 1, lines1, lines2), put)
    requires LaneOut(g.Counts(), Prod(g.frag), LastOne(limits, n, lane), lane, put, after, out)
    requires forall f :: InShape(f, g.Counts()) && Done(limits, n + 1, f[0]) ==>
               ContentAfter(g, traces, n + 1, lines1, lines2)(f) == ContentAfter(g, traces, |traces|, lines1, lines2)(f)
    ensures After(g, traces, n + 1, lines1, lines2, limits, after, log + out)
  {
    CommitProgress(g.Counts(), Prod(g.frag), limits, n, lane, LastOne(limits, n, lane),
      ContentAfter(g, traces, n, lines1, lines2), ContentAfter(g, traces, n + 1, lines1, lines2),
      ContentAfter(g, traces, |traces|, lines1, lines2), files, log, put, after, out);
  }

  lemma InGrid(g: Gvt, f: Tuple)
    requires CurtainPlan.Curtain(g)
    ensures InShape(f, g.Counts())
            <==> |f| == 3 && f[0] < g.FragmentCount(0) && f[1] < g.FragmentCount(1) && f[2] < g.FragmentCount(2)
  {}

  /** What Commit promises, in terms of the grid. */
  lemma LaneIsOut(
    g: Gvt, last: bool, lane: nat, before: Files, after: Files,
    out: seq<(Tuple, seq<Sample>)>)
    requires CurtainPlan.Curtain(g) && TakenOut(before, after, out, Prod(g.frag))
    requires last ==> lane < g.FragmentCount(0)
    requires forall f: Tuple :: f in Ids(out) <==>
               last && |f| == 3 && f[0] == lane && f[1] < g.FragmentCount(1) && f[2] < g.FragmentCount(2)
    ensures LaneOut(g.Counts(), Prod(g.frag), last, lane, before, after, out)
  {
    forall f: Tuple
      ensures last && InShape(f, g.Counts()) && f[0] == lane
              <==> last && |f| == 3 && f[0] == lane && f[1] < g.FragmentCount(1) && f[2] < g.FragmentCount(2)
    {
      InGrid(g, f);
    }
  }

  /** What the loop relies on, apart from the files. */
  ghost predicate Ready(fs: FileSet, traces: seq<Trace>)
    reads fs
  {
    && fs.LinesValid() && SurveyValid(traces, fs.lines1, fs.lines2, fs.depth)
    && LimitsAre(traces, fs.lines1, fs.shape[0], fs.limits)
  }

  /** Committing the lane of trace n. */
  method CommitTrace(fs: FileSet, traces: seq<Trace>, ghost lane: nat) returns (out: seq<(Tuple, seq<Sample>)>)
    requires fs.Valid() && Ready(fs, traces) && fs.traceno < |traces|
    requires InLane(traces, fs.lines1, fs.shape[0], fs.traceno, lane)
    modifies fs`traceno, fs.files
    ensures fs.Valid() && fs.traceno == old(fs.traceno) + 1 && fs.files.files.Values <= old(fs.files.files.Values)
    ensures LaneOut(fs.Gvt().Counts(), Prod(fs.shape), LastOne(fs.limits, old(fs.traceno), lane), lane,
              old(fs.files.Contents()), fs.files.Contents(), out)
  {
    ghost var n, before := fs.traceno, fs.files.Contents();
    LaneOfLine(fs.lines1, fs.shape[0], fs.key1s, fs.off1s, traces[n].key1);
    assert fs.key1s[traces[n].key1] == lane && lane in fs.limits;
    out := fs.Commit(traces[fs.traceno].key1);
    LaneIsOut(fs.Gvt(), LastOne(fs.limits, n, lane), lane, before, fs.files.Contents(), out);
  }

  /** What one round of the loop keeps, for the geometry and the lines of a file set. */
  lemma RoundOf(
    fs: FileSet, traces: seq<Trace>, n: nat, lane: nat, limits: map<nat, nat>, files: Files,
    log: seq<(Tuple, seq<Sample>)>, after: Files, out: seq<(Tuple, seq<Sample>)>, next: nat,
    more: seq<(Tuple, seq<Sample>)>)
    requires SurveyValid(traces, fs.lines1, fs.lines2, fs.depth) && |fs.shape| == 3 && Positive(fs.shape)
    requires CurtainPlan.Curtain(fs.Gvt()) && n < |traces| && next == n + 1 && more == log + out
    requires LimitsAre(traces, fs.lines1, fs.shape[0], limits) && InLane(traces, fs.lines1, fs.shape[0], n, lane)
    requires traces[n].key1 in fs.lines1 && traces[n].key2 in fs.lines2
    requires After(fs.Gvt(), traces, n, fs.lines1, fs.lines2, limits, files, log)
    requires LaneOut(fs.Gvt().Counts(), Prod(fs.shape), LastOne(limits, n, lane), lane,
               PutTraceN(fs.Gvt(), traces, n, fs.lines1, fs.lines2, files), after, out)
    ensures After(fs.Gvt(), traces, next, fs.lines1, fs.lines2, limits, after, more)
  {
    RoundKeeps(traces, fs.lines1, fs.lines2, fs.depth, fs.shape, n, lane, limits, files, log, after, out);
  }

  /** One round of the loop: put a trace, and commit its lane. */
  method PutAndCommit(fs: FileSet, traces: seq<Trace>, log: seq<(Tuple, seq<Sample>)>)
    returns (more: seq<(Tuple, seq<Sample>)>)
    requires fs.Valid() && Ready(fs, traces) && fs.traceno < |traces|
    requires After(fs.Gvt(), traces, fs.traceno, fs.lines1, fs.lines2, fs.limits, fs.files.Contents(), log)
    modifies fs`traceno, fs.files, fs.files.files.Values
    ensures fs.Valid() && fs.traceno == old(fs.traceno) + 1 && fresh(fs.files.files.Values - old(fs.files.files.Values))
    ensures After(fs.Gvt(), traces, fs.traceno, fs.lines1, fs.lines2, fs.limits, fs.files.Contents(), more)
  {
    var n := fs.traceno;
    ghost var files := fs.files.Contents();
    SurveyLines(traces, fs.lines1, fs.lines2, fs.depth, n);
    fs.Put(traces[n].key1, traces[n].key2, traces[n].values);
    ghost var lane := LaneOf(traces, fs.lines1, fs.shape[0], n);
    var out := CommitTrace(fs, traces, lane);
    more := log + out;
    RoundOf(fs, traces, n, lane, fs.limits, files, log, fs.files.Contents(), out, fs.traceno, more);
  }

  /** The loop over all traces. */
  method PutAll(fs: FileSet, traces: seq<Trace>) returns (log: seq<(Tuple, seq<Sample>)>)
    requires fs.Valid() && Ready(fs, traces) && fs.traceno == 0 && fs.files.files == map[]
    modifies fs`traceno, fs.files
    ensures Uploaded(fs.Gvt(), SurveyCube(traces, |traces|, fs.lines1, fs.lines2), log)
  {
    ProgressInit(fs.Gvt(), traces, fs.lines1, fs.lines2, fs.limits);
    log := [];
    assert fs.files.Contents() == map[];
    for n := 0 to |traces|
      invariant fs.Valid() && Ready(fs, traces) && fs.traceno == n && fresh(fs.files.files.Values)
      invariant After(fs.Gvt(), traces, n, fs.lines1, fs.lines2, fs.limits, fs.files.Contents(), log)
    {
      log := PutAndCommit(fs, traces, log);
    }
    AllUploaded(fs.Gvt(), traces, fs.lines1, fs.lines2, fs.limits, fs.files.Contents(), log);
  }

  /** A fileset for the lines of a scan, with its limits set. */
  method Prepare(
    traces: seq<Trace>, lines1: seq<LineNo>, lines2: seq<LineNo>, last: map<LineNo, nat>, key3s: seq<int>, shape: Tuple)
    returns (fs: FileSet)
    requires SurveyValid(traces, lines1, lines2, |key3s|) && ScanOf(traces, lines1, last)
    requires |shape| == 3 && Positive(shape)
    ensures fresh(fs) && fresh(fs.files) && fs.Valid() && Ready(fs, traces)
    ensures fs.traceno == 0 && fs.files.files == map[]
    ensures fs.lines1 == lines1 && fs.lines2 == lines2 && fs.depth == |key3s| && fs.shape == shape
  {
    SurveyLines(traces, lines1, lines2, |key3s|, 0);
    fs := new FileSet(lines1, lines2, key3s, shape);
    SetLaneLimits(fs, traces, last);
  }

  method SetLaneLimits(fs: FileSet, traces: seq<Trace>, last: map<LineNo, nat>)
    requires fs.Valid() && fs.limits == map[] && SurveyValid(traces, fs.lines1, fs.lines2, fs.depth)
    requires ScanOf(traces, fs.lines1, last)
    modifies fs`limits
    ensures Ready(fs, traces)
  {
    fs.SetLimits(last);
    LaneLimits(traces, fs.lines1, fs.shape[0], fs.key1s, fs.off1s, last, fs.limits);
  }

  /** The values of a trace in a file set: its samples, or the one value of an attribute. */
  function ValuesPerTrace(samples: nat, attribute: bool): nat {
    if attribute then 1 else samples
  }

  /**
   * scan and upload of the data or an attribute: every fragment of the grid is
   * written exactly once, with the values of the traces at their place, and
   * zeros where there is none. The scan fails when the sample interval is zero.
   */
  method UploadSurvey(traces: seq<Trace>, samples: nat, interval: int, attribute: bool, shape: Tuple)
    returns (log: Option<seq<(Tuple, seq<Sample>)>>, ghost lines1: seq<LineNo>, ghost lines2: seq<LineNo>)
    requires |traces| > 0 && samples > 0 && |shape| == 3 && Positive(shape)
    requires forall m :: 0 <= m < |traces| ==> |traces[m].values| == ValuesPerTrace(samples, attribute)
    ensures log.None? <==> interval == 0
    ensures log.Some? ==>
              && SurveyValid(traces, lines1, lines2, ValuesPerTrace(samples, attribute))
              && Uploaded(SurveyGvt(lines1, lines2, ValuesPerTrace(samples, attribute), shape),
                   SurveyCube(traces, |traces|, lines1, lines2), log.value)
  {
    var report := Scan(traces, samples, interval);
    if report.None? {
      return None, [], [];
    }
    var LineReport(l1, l2, depths, last) := report.value;
    lines1, lines2 := l1, l2;
    var key3s := if attribute then [1] else depths;
    var fs := Prepare(traces, l1, l2, last, key3s, shape);
    var files := PutAll(fs, traces);
    log := Some(files);
  }

  /** Every fragment of the grid, once each. */
  ghost predicate Uploaded(g: Gvt, cube: Cube, log: seq<(Tuple, seq<Sample>)>) {
    && g.Valid() && DistinctIds(Ids(log))
    && (forall f :: f in Ids(log) <==> InShape(f, g.Counts()))
    && forall a :: 0 <= a < |log| ==> |log[a].0| == |g.cube| && log[a].1 == Fragmented(g, cube, log[a].0)
  }

  lemma AllUploaded(
    g: Gvt, traces: seq<Trace>, lines1: seq<LineNo>, lines2: seq<LineNo>, limits: map<nat, nat>, files: Files,
    log: seq<(Tuple, seq<Sample>)>)
    requires CurtainPlan.Curtain(g) && |lines1| == g.cube[0] && LimitsAre(traces, lines1, g.frag[0], limits)
    requires After(g, traces, |traces|, lines1, lines2, limits, files, log)
    ensures Uploaded(g, SurveyCube(traces, |traces|, lines1, lines2), log)
  {
    forall f | InShape(f, g.Counts())
      ensures Done(limits, |traces|, f[0])
    {
      assert f[0] < g.Counts()[0];
      assert LastOfLane(traces, lines1, g.frag[0], limits[f[0]], f[0]);
    }
    forall a | 0 <= a < |log|
      ensures |log[a].0| == 3 && log[a].1 == Fragmented(g, SurveyCube(traces, |traces|, lines1, lines2), log[a].0)
    {
      assert Ids(log)[a] in Ids(log);
    }
  }

  /** The files by name, as they are found in storage afterwards. */
  function StoreOf(log: seq<(Tuple, seq<Sample>)>, n: nat): (r: Store)
    requires n <= |log|
  {
    if n == 0 then map[] else StoreOf(log, n - 1)[log[n - 1].0 := log[n - 1].1]
  }

  lemma {:induction false} StoreOfIs(log: seq<(Tuple, seq<Sample>)>, n: nat, a: nat)
    requires DistinctIds(Ids(log)) && a < n <= |log|
    ensures log[a].0 in StoreOf(log, n) && StoreOf(log, n)[log[a].0] == log[a].1
  {
    if a < n - 1 {
      StoreOfIs(log, n - 1, a);
      assert Ids(log)[a] != Ids(log)[n - 1];
    }
  }

  /** What an upload leaves in storage is what the workers rely on. */
  lemma UploadStores(g: Gvt, cube: Cube, log: seq<(Tuple, seq<Sample>)>)
    requires Uploaded(g, cube, log)
    ensures Stores(StoreOf(log, |log|), g, cube)
  {
    forall f | InShape(f, g.Counts())
      ensures f in StoreOf(log, |log|) && StoreOf(log, |log|)[f] == Fragmented(g, cube, f)
    {
      assert f in Ids(log);
      var a :| 0 <= a < |log| && Ids(log)[a] == f;
      StoreOfIs(log, |log|, a);
    }
    FragmentedStored(StoreOf(log, |log|), g, cube);
  }

  /**
   * Reading the traces of a survey with distinct pairs of lines in another order
   * gives the same lines, the same cube, and the same files.
   */
  lemma OrderIrrelevant(
    a: seq<Trace>, b: seq<Trace>, depth: nat, shape: Tuple, lines1: seq<LineNo>, lines2: seq<LineNo>,
    lines1': seq<LineNo>, lines2': seq<LineNo>, logA: seq<(Tuple, seq<Sample>)>, logB: seq<(Tuple, seq<Sample>)>)
    requires Permutation(a, b) && DistinctPairs(a) && DistinctPairs(b)
    requires SurveyValid(a, lines1, lines2, depth) && SurveyValid(b, lines1', lines2', depth)
    requires Uploaded(SurveyGvt(lines1, lines2, depth, shape), SurveyCube(a, |a|, lines1, lines2), logA)
    requires Uploaded(SurveyGvt(lines1', lines2', depth, shape), SurveyCube(b, |b|, lines1', lines2'), logB)
    ensures lines1 == lines1' && lines2 == lines2'
    ensures Permutation(logA, logB)
  {
    SameLines(a, b, lines1, lines2, lines1', lines2');
    var g := SurveyGvt(lines1, lines2, depth, shape);
    forall f | |f| == |g.cube|
      ensures Fragmented(g, SurveyCube(a, |a|, lines1, lines2), f)
              == Fragmented(g, SurveyCube(b, |b|, lines1, lines2), f)
    {
      SameFragment(g, a, b, lines1, lines2, f);
    }
    forall e
      ensures e in logA <==> e in logB
    {
      InLog(g, SurveyCube(a, |a|, lines1, lines2), logA, e);
      InLog(g, SurveyCube(b, |b|, lines1, lines2), logB, e);
    }
    DistinctLog(logA);
    DistinctLog(logB);
    SameElements(logA, logB);
  }

  lemma DistinctLog(log: seq<(Tuple, seq<Sample>)>)
    requires DistinctIds(Ids(log))
    ensures forall i, j :: 0 <= i < j < |log| ==> log[i] != log[j]
  {
    forall i, j | 0 <= i < j < |log|
      ensures log[i] != log[j]
    {
      assert Ids(log)[i] != Ids(log)[j];
    }
  }

  lemma InLog(g: Gvt, cube: Cube, log: seq<(Tuple, seq<Sample>)>, e: (Tuple, seq<Sample>))
    requires Uploaded(g, cube, log)
    ensures e in log <==> InShape(e.0, g.Counts()) && e.1 == Fragmented(g, cube, e.0)
  {
    if e in log {
      var i :| 0 <= i < |log| && log[i] == e;
      assert Ids(log)[i] in Ids(log);
    }
    if InShape(e.0, g.Counts()) {
      assert e.0 in Ids(log);
      var i :| 0 <= i < |log| && Ids(log)[i] == e.0;
      assert log[i].0 == e.0;
    }
  }

  lemma SameFragment(g: Gvt, a: seq<Trace>, b: seq<Trace>, lines1: seq<LineNo>, lines2: seq<LineNo>, f: Tuple)
    requires g.Valid() && |f| == |g.cube| && Permutation(a, b) && DistinctPairs(a) && DistinctPairs(b)
    ensures Fragmented(g, SurveyCube(a, |a|, lines1, lines2), f) == Fragmented(g, SurveyCube(b, |b|, lines1, lines2), f)
  {
    forall o | 0 <= o < Prod(g.frag)
      ensures Fragmented(g, SurveyCube(a, |a|, lines1, lines2), f)[o]
              == Fragmented(g, SurveyCube(b, |b|, lines1, lines2), f)[o]
    {
      var p := g.Global(f, PointAt(o, g.frag));
      if |p| == 3 && p[0] < |lines1| && p[1] < |lines2| {
        LatestPermuted(a, b, lines1[p[0]], lines2[p[1]]);
      }
    }
  }

  lemma SameLines(
    a: seq<Trace>, b: seq<Trace>, lines1: seq<LineNo>, lines2: seq<LineNo>, lines1': seq<LineNo>, lines2': seq<LineNo>)
    requires Permutation(a, b) && LinesAre(a, lines1, lines2) && LinesAre(b, lines1', lines2')
    ensures lines1 == lines1' && lines2 == lines2'
  {
    var f, h := (t: Trace) => t.key1 as int, (t: Trace) => t.key2 as int;
    MapPermutation(f, a, b);
    MapPermutation(h, a, b);
    assert Map(f, a) == Keys1(a) && Map(f, b) == Keys1(b) && Map(h, a) == Keys2(a) && Map(h, b) == Keys2(b);
    SameMembers(Keys1(a), Keys1(b));
    SameMembers(Keys2(a), Keys2(b));
    SortedUnique(lines1, lines1');
    SortedUnique(lines2, lines2');
  }

  lemma SameMembers(a: seq<int>, b: seq<int>)
    requires Permutation(a, b)
    ensures forall k :: k in a <==> k in b
  {
    forall k
      ensures k in a <==> k in b
    {
      assert k in a <==> k in multiset(a);
      assert k in b <==> k in multiset(b);
    }
  }
}
