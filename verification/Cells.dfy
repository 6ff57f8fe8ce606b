/**
 * Writing cells of an output buffer. What a bundle does to the buffer is the
 * list of the cells it writes; a buffer is assembled when the lists of all
 * bundles together name every cell exactly once, with the right value.
 */
module Cells {
  import opened Lists

  /** The four bytes of a float of the cube. Samples are only ever copied. */
  type Sample = bv32

  function ZeroSamples(n: nat): (r: seq<Sample>)
    ensures |r| == n
  {
    seq(n, _ => 0)
  }

  datatype Write = Write(at: nat, value: Sample)

  predicate InBounds(ws: seq<Write>, n: nat) {
    forall k :: 0 <= k < |ws| ==> ws[k].at < n
  }

  /** The buffer after performing the writes in order. */
  function Apply(buf: seq<Sample>, ws: seq<Write>): (r: seq<Sample>)
    requires InBounds(ws, |buf|)
    ensures |r| == |buf|
  {
    if |ws| == 0 then buf else
      var n := |ws| - 1;
      Apply(buf, ws[..n])[ws[n].at := ws[n].value]
  }

  /** A memcpy of n samples from src[from..] to the buffer position at. */
  function Chunk(at: nat, src: seq<Sample>, from: nat, n: nat): (r: seq<Write>)
    requires from + n <= |src|
    ensures |r| == n
    ensures forall j :: 0 <= j < n ==> r[j] == Write(at + j, src[from + j])
  {
    seq(n, j requires 0 <= j < n => Write(at + j, src[from + j]))
  }

  function AllCells(target: seq<Sample>): (r: seq<Write>)
    ensures |r| == |target|
  {
    seq(|target|, x requires 0 <= x < |target| => Write(x, target[x]))
  }

  /** The writes name every cell of the target exactly once, each with the target's value. */
  predicate ExactCover(ws: seq<Write>, target: seq<Sample>) {
    Permutation(ws, AllCells(target))
  }

  predicate Right(ws: seq<Write>, target: seq<Sample>) {
    forall k :: 0 <= k < |ws| ==> ws[k].at < |target| && ws[k].value == target[ws[k].at]
  }

  predicate Once(ws: seq<Write>) {
    forall i, j :: 0 <= i < j < |ws| ==> ws[i].at != ws[j].at
  }

  predicate Apart(a: seq<Write>, b: seq<Write>) {
    forall i, j :: 0 <= i < |a| && 0 <= j < |b| ==> a[i].at != b[j].at
  }

  ghost predicate Written(ws: seq<Write>, x: nat) {
    exists k :: 0 <= k < |ws| && ws[k].at == x
  }

  lemma {:induction false} ApplyConcat(buf: seq<Sample>, a: seq<Write>, b: seq<Write>)
    requires InBounds(a, |buf|) && InBounds(b, |buf|)
    ensures InBounds(a + b, |buf|)
    ensures Apply(buf, a + b) == Apply(Apply(buf, a), b)
  {
    if |b| == 0 {
      assert a + b == a;
    } else {
      var n := |b| - 1;
      assert (a + b)[..|a + b| - 1] == a + b[..n];
      ApplyConcat(buf, a, b[..n]);
    }
  }

  /** A cell that is not written keeps its value. */
  lemma {:induction false} ApplyFrame(buf: seq<Sample>, ws: seq<Write>, x: nat)
    requires InBounds(ws, |buf|) && x < |buf| && !Written(ws, x)
    ensures Apply(buf, ws)[x] == buf[x]
  {
    if |ws| > 0 {
      var n := |ws| - 1;
      assert ws[n].at != x;
      forall k | 0 <= k < n
        ensures ws[..n][k].at != x
      {
        assert ws[k].at != x;
      }
      ApplyFrame(buf, ws[..n], x);
    }
  }

  /** Writes that agree with a target leave the target's value in every cell they write. */
  lemma {:induction false} ApplyRight(buf: seq<Sample>, ws: seq<Write>, target: seq<Sample>, x: nat)
    requires |buf| == |target| && Right(ws, target) && x < |buf| && Written(ws, x)
    ensures Apply(buf, ws)[x] == target[x]
  {
    var n := |ws| - 1;
    if ws[n].at != x {
      var k :| 0 <= k < |ws| && ws[k].at == x;
      assert ws[..n][k].at == x;
      ApplyRight(buf, ws[..n], target, x);
    }
  }

  /** An exact cover assembles the target, whatever was in the buffer, and in whatever order it is written. */
  lemma ExactCoverApplied(buf: seq<Sample>, ws: seq<Write>, target: seq<Sample>)
    requires |buf| == |target| && ExactCover(ws, target)
    ensures InBounds(ws, |buf|)
    ensures Apply(buf, ws) == target
    ensures |ws| == |target|
  {
    var cells := AllCells(target);
    PermutationLength(ws, cells);
    forall k | 0 <= k < |ws|
      ensures ws[k].at < |target| && ws[k].value == target[ws[k].at]
    {
      assert ws[k] in multiset(ws);
      assert ws[k] in cells;
    }
    forall x: nat | x < |target|
      ensures Apply(buf, ws)[x] == target[x]
    {
      assert cells[x] in multiset(cells);
      assert cells[x] in ws;
      ApplyRight(buf, ws, target, x);
    }
  }

  /** Right values, no cell twice, no cell left out: an exact cover. */
  lemma CoverFromParts(ws: seq<Write>, target: seq<Sample>)
    requires Right(ws, target) && Once(ws)
    requires forall x: nat :: x < |target| ==> Written(ws, x)
    ensures ExactCover(ws, target)
  {
    var cells := AllCells(target);
    forall w
      ensures w in ws <==> w in cells
    {
      if w in ws {
        assert w == cells[w.at];
      }
      if w in cells {
        assert Written(ws, w.at);
      }
    }
    SameElements(ws, cells);
  }

  lemma {:induction false} FlattenOnceTo(pieces: seq<seq<Write>>, n: nat)
    requires n <= |pieces|
    requires forall i :: 0 <= i < |pieces| ==> Once(pieces[i])
    requires forall i, j :: 0 <= i < j < |pieces| ==> Apart(pieces[i], pieces[j])
    ensures Once(FlattenTo(pieces, n))
  {
    if n > 0 {
      var front, last := FlattenTo(pieces, n - 1), pieces[n - 1];
      FlattenOnceTo(pieces, n - 1);
      forall i, j | 0 <= i < |front| && 0 <= j < |last|
        ensures front[i].at != last[j].at
      {
        FlattenMemberTo(pieces, n - 1, front[i]);
        var m :| 0 <= m < n - 1 && front[i] in pieces[m];
        assert Apart(pieces[m], pieces[n - 1]);
      }
    }
  }

  lemma FlattenOnce(pieces: seq<seq<Write>>)
    requires forall i :: 0 <= i < |pieces| ==> Once(pieces[i])
    requires forall i, j :: 0 <= i < j < |pieces| ==> Apart(pieces[i], pieces[j])
    ensures Once(Flatten(pieces))
  {
    FlattenOnceTo(pieces, |pieces|);
  }

  lemma FlattenRight(pieces: seq<seq<Write>>, target: seq<Sample>)
    requires forall i :: 0 <= i < |pieces| ==> Right(pieces[i], target)
    ensures Right(Flatten(pieces), target)
  {
    forall k | 0 <= k < |Flatten(pieces)|
      ensures Flatten(pieces)[k].at < |target| && Flatten(pieces)[k].value == target[Flatten(pieces)[k].at]
    {
      var w := Flatten(pieces)[k];
      FlattenMember(pieces, w);
      var i :| 0 <= i < |pieces| && w in pieces[i];
      assert Right(pieces[i], target);
    }
  }

  lemma FlattenWritten(pieces: seq<seq<Write>>, i: nat, k: nat)
    requires i < |pieces| && k < |pieces[i]|
    ensures Written(Flatten(pieces), pieces[i][k].at)
  {
    FlattenMember(pieces, pieces[i][k]);
  }

  lemma FlattenInBounds(pieces: seq<seq<Write>>, n: nat)
    requires forall i :: 0 <= i < |pieces| ==> InBounds(pieces[i], n)
    ensures InBounds(Flatten(pieces), n)
  {
    forall k | 0 <= k < |Flatten(pieces)|
      ensures Flatten(pieces)[k].at < n
    {
      var w := Flatten(pieces)[k];
      FlattenMember(pieces, w);
      var i :| 0 <= i < |pieces| && w in pieces[i];
      assert InBounds(pieces[i], n);
    }
  }

  /** The buffer after one memcpy. */
  lemma {:induction false} ApplyChunk(buf: seq<Sample>, at: nat, src: seq<Sample>, from: nat, n: nat)
    requires from + n <= |src| && at + n <= |buf|
    ensures InBounds(Chunk(at, src, from, n), |buf|)
    ensures Apply(buf, Chunk(at, src, from, n)) == buf[..at] + src[from..from + n] + buf[at + n..]
  {
    if n > 0 {
      assert Chunk(at, src, from, n)[..n - 1] == Chunk(at, src, from, n - 1);
      ApplyChunk(buf, at, src, from, n - 1);
      assert src[from..from + n] == src[from..from + n - 1] + [src[from + n - 1]];
    } else {
      assert buf == buf[..at] + [] + buf[at..];
    }
  }

  /** A buffer with a part of it replaced. */
  function Splice(buf: seq<Sample>, at: nat, part: seq<Sample>): (r: seq<Sample>)
    requires at + |part| <= |buf|
    ensures |r| == |buf|
  {
    buf[..at] + part + buf[at + |part|..]
  }

  lemma SpliceFrame(buf: seq<Sample>, at: nat, part: seq<Sample>, a: nat, b: nat)
    requires at + |part| <= |buf| && a <= b <= |buf|
    ensures b <= at || at + |part| <= a ==> Splice(buf, at, part)[a..b] == buf[a..b]
    ensures Splice(buf, at, part)[at..at + |part|] == part
  {}

  /*
   * Segments that are put in one buffer, back to back, in any order
   */

  /** The buffer after the first n segments that arrive are put in their places. */
  function Scattered(segments: seq<seq<Sample>>, arrival: seq<nat>, n: nat): (r: seq<Sample>)
    requires n <= |arrival| && forall i :: 0 <= i < |arrival| ==> arrival[i] < |segments|
    ensures |r| == |Flatten(segments)|
  {
    if n == 0 then ZeroSamples(|Flatten(segments)|)
    else
      var k := arrival[n - 1];
      FlattenSlice(segments, k, |segments|);
      Splice(Scattered(segments, arrival, n - 1), |FlattenTo(segments, k)|, segments[k])
  }

  /** Segment k is in its place. */
  predicate InPlace(segments: seq<seq<Sample>>, buf: seq<Sample>, k: nat)
    requires k < |segments| && |buf| == |Flatten(segments)|
  {
    FlattenSlice(segments, k, |segments|);
    buf[|FlattenTo(segments, k)|..|FlattenTo(segments, k + 1)|] == segments[k]
  }

  /** A segment that is put in its place leaves the others alone. */
  lemma OtherInPlace(segments: seq<seq<Sample>>, buf: seq<Sample>, j: nat, k: nat)
    requires j < |segments| && k < |segments| && |buf| == |Flatten(segments)|
    requires k == j || InPlace(segments, buf, k)
    ensures |FlattenTo(segments, j)| + |segments[j]| <= |buf|
    ensures InPlace(segments, Splice(buf, |FlattenTo(segments, j)|, segments[j]), k)
  {
    FlattenSlice(segments, j, |segments|);
    FlattenSlice(segments, k, |segments|);
    if j < k {
      FlattenSlice(segments, j, k);
    } else if k < j {
      FlattenSlice(segments, k, j);
    }
    SpliceFrame(buf, |FlattenTo(segments, j)|, segments[j], |FlattenTo(segments, k)|, |FlattenTo(segments, k + 1)|);
  }

  lemma {:induction false} ArrivedInPlace(segments: seq<seq<Sample>>, arrival: seq<nat>, n: nat, k: nat)
    requires n <= |arrival| && forall i :: 0 <= i < |arrival| ==> arrival[i] < |segments|
    requires k < |segments| && k in arrival[..n]
    ensures InPlace(segments, Scattered(segments, arrival, n), k)
  {
    assert arrival[..n] == arrival[..n - 1] + [arrival[n - 1]];
    if arrival[n - 1] != k {
      ArrivedInPlace(segments, arrival, n - 1, k);
    }
    OtherInPlace(segments, Scattered(segments, arrival, n - 1), arrival[n - 1], k);
  }

  lemma {:induction false} Together(segments: seq<seq<Sample>>, buf: seq<Sample>, n: nat)
    requires n <= |segments| && |buf| == |Flatten(segments)|
    requires forall k :: 0 <= k < |segments| ==> InPlace(segments, buf, k)
    ensures |FlattenTo(segments, n)| <= |buf| && buf[..|FlattenTo(segments, n)|] == FlattenTo(segments, n)
  {
    if n > 0 {
      Together(segments, buf, n - 1);
      FlattenSlice(segments, n - 1, |segments|);
      assert InPlace(segments, buf, n - 1);
      var lo, hi := |FlattenTo(segments, n - 1)|, |FlattenTo(segments, n)|;
      assert buf[..hi] == buf[..lo] + buf[lo..hi];
    }
  }

  /** When all segments have arrived, in whatever order, the buffer is all of them, back to back. */
  lemma AllArrived(segments: seq<seq<Sample>>, arrival: seq<nat>)
    requires forall i :: 0 <= i < |arrival| ==> arrival[i] < |segments|
    requires forall k :: 0 <= k < |segments| ==> k in arrival
    ensures Scattered(segments, arrival, |arrival|) == Flatten(segments)
  {
    var buf := Scattered(segments, arrival, |arrival|);
    assert arrival[..|arrival|] == arrival;
    forall k | 0 <= k < |segments|
      ensures InPlace(segments, buf, k)
    {
      ArrivedInPlace(segments, arrival, |arrival|, k);
    }
    Together(segments, buf, |segments|);
    assert buf[..|buf|] == buf;
  }

  method Memcpy(dst: array<Sample>, at: nat, src: seq<Sample>, from: nat, n: nat)
    requires at + n <= dst.Length && from + n <= |src|
    modifies dst
    ensures dst[..] == old(dst[..at]) + src[from..from + n] + old(dst[at + n..])
  {
    for j := 0 to n
      invariant dst[..] == old(dst[..at]) + src[from..from + j] + old(dst[at + j..])
    {
      dst[at + j] := src[from + j];
    }
  }
}
