/**
 * Decoding a response as it arrives: decode_stream of
 * python/oneseismic/decoding/decoding.py drives the decoder with whatever
 * pieces the network delivers. How the response is cut makes no difference.
 */
module Stream {
  import opened Arith
  import opened Lists
  import opened Cells
  import opened Messages
  import opened ArrayTag
  import opened Decoder
  import opened Geometry

  /*
   * Buffers for the output
   */

  /** xs[:n] and xs[n:] of Python, for any n. */
  function Take(xs: seq<int>, n: int): seq<int> {
    if n >= |xs| then xs else if n >= 0 then xs[..n] else if -n >= |xs| then [] else xs[..|xs| + n]
  }

  function Skip(xs: seq<int>, n: int): (r: seq<int>)
    ensures |r| <= |xs|
  {
    if n >= |xs| then [] else if n >= 0 then xs[n..] else if -n >= |xs| then xs else xs[|xs| + n..]
  }

  function SplitShapes(xs: seq<int>): seq<seq<int>>
    decreases |xs|
  {
    if |xs| == 0 then [] else [Take(xs[1..], xs[0])] + SplitShapes(Skip(xs[1..], xs[0]))
  }

  function Samples(shape: seq<int>): int {
    if |shape| == 0 then 1 else shape[0] * Samples(shape[1..])
  }

  predicate ShapeValid(shape: seq<int>) {
    forall i :: 0 <= i < |shape| ==> shape[i] >= 0
  }

  lemma {:induction false} SamplesNat(shape: seq<int>)
    requires ShapeValid(shape)
    ensures Samples(shape) >= 0
  {
    if |shape| > 0 {
      SamplesNat(shape[1..]);
      assert shape[0] * Samples(shape[1..]) >= 0;
    }
  }

  /** Zeroed buffers for the first n attributes; numpy refuses a shape with a negative side. */
  function Allocated(attributes: seq<string>, shapes: seq<seq<int>>, n: nat): Option<Writers>
    requires n <= |attributes| && n <= |shapes|
  {
    if n == 0 then Some(map[])
    else
      match Allocated(attributes, shapes, n - 1)
      case None => None
      case Some(w) =>
        if !ShapeValid(shapes[n - 1]) then None
        else
          SamplesNat(shapes[n - 1]);
          Some(w[attributes[n - 1] := ZeroSamples(Samples(shapes[n - 1]))])
  }

  function AllocatedFor(head: Header): Option<Writers> {
    var shapes := SplitShapes(head.shapes);
    Allocated(head.attributes, shapes, Min(|head.attributes|, |shapes|))
  }

  /*
   * The whole stream at once
   */

  datatype StreamError = HeaderMissing | Incomplete | BadShape | Decoding(error: Error)

  datatype Outcome = Decoded(header: Header, writers: Writers) | Broken(error: StreamError)

  /** The outcome of a stream, when all of it is buffered before the first call. */
  function DecodeAll(next: Unpacker, bytes: seq<Byte>): Outcome {
    var (atHeader, status) := Step(next, Initial.Feed(bytes));
    if status.Failed? then Broken(Decoding(status.error))
    else if atHeader.phase != AwaitCount then Broken(HeaderMissing)
    else Resume(next, atHeader)
  }

  /** The header is parsed: allocate, register, go on. */
  function Resume(next: Unpacker, st: State): Outcome
    requires st.Valid() && st.phase == AwaitCount
  {
    match AllocatedFor(st.head.value)
    case None => Broken(BadShape)
    case Some(w) => Finish(next, st.(writers := w))
  }

  function Finish(next: Unpacker, st: State): Outcome
    requires st.Valid() && st.phase == AwaitCount
  {
    var (end, status) := Step(next, st);
    match status
    case Failed(e) => Broken(Decoding(e))
    case Paused => Broken(Incomplete)
    case Done => Decoded(st.head.value, end.writers)
  }

  /*
   * Cutting the stream
   */

  predicate BeforeHeader(phase: Phase) {
    phase in {Envelope, AwaitHeader}
  }

  /** The call that parses the header, and stops there. */
  predicate HeaderPause(before: State, after: State) {
    BeforeHeader(before.phase) && after.phase == AwaitCount
  }

  lemma DropMore(s: seq<Byte>, t: seq<Byte>, n: nat)
    requires n <= |s|
    ensures Drop(s + t, n) == Drop(s, n) + t
  {}

  lemma BundleFeed(next: Unpacker, st: State, b: seq<Byte>)
    requires PrefixStable(next) && st.Valid() && st.phase == AwaitBundles
    ensures var t := StepBundle(next, st);
            if t.Continue? then StepBundle(next, st.Feed(b)) == Continue(t.state.Feed(b))
            else if t.status.Paused? then t.state == st
            else StepBundle(next, st.Feed(b)) == Stop(t.state.Feed(b), t.status)
  {
    if st.nbundles > 0 && !next(st.buf).NeedMore? {
      assert next(st.buf + b) == next(st.buf);
      if next(st.buf).Got? {
        DropMore(st.buf, b, next(st.buf).nread);
      }
    }
  }

  lemma {:induction false} BundlesFeed(next: Unpacker, st: State, b: seq<Byte>)
    requires PrefixStable(next) && st.Valid() && st.phase == AwaitBundles
    ensures var (s1, r1) := StepBundles(next, st);
            && s1.Valid() && s1.phase in {AwaitBundles, Finished}
            && (if r1.Paused? then
                  s1.phase == AwaitBundles && StepBundles(next, st.Feed(b)) == StepBundles(next, s1.Feed(b))
                else StepBundles(next, st.Feed(b)) == (s1.Feed(b), r1))
    decreases Max(0, st.nbundles)
  {
    BundleFeed(next, st, b);
    var t := StepBundle(next, st);
    if t.Continue? {
      BundlesFeed(next, t.state, b);
    }
  }

  lemma CountFeed(next: Unpacker, st: State, b: seq<Byte>)
    requires PrefixStable(next) && st.Valid() && st.phase == AwaitCount
    ensures var (s1, r1) := StepCount(next, st);
            && s1.Valid() && !BeforeHeader(s1.phase)
            && (if r1.Paused? then Step(next, st.Feed(b)) == Step(next, s1.Feed(b))
                else Step(next, st.Feed(b)) == (s1.Feed(b), r1))
  {
    var p := ParseArrayLen(st.buf);
    if !p.Insufficient? {
      ParseStable(st.buf, b);
      if p.Tag? {
        DropMore(st.buf, b, p.nread);
        if p.len == st.head.value.nbundles {
          BundlesFeed(next, st.(buf := Drop(st.buf, p.nread), nbundles := p.len, phase := AwaitBundles), b);
        }
      }
    }
  }

  lemma HeaderFeed(next: Unpacker, st: State, b: seq<Byte>)
    requires PrefixStable(next) && st.phase == AwaitHeader
    ensures var (s1, r1) := StepHeader(next, st);
            && s1.Valid() && (s1.phase == AwaitHeader || s1.phase == AwaitCount)
            && !r1.Done? && (s1.phase == AwaitCount ==> r1.Paused?)
            && (if r1.Paused? && s1.phase == AwaitHeader then s1 == st
                else StepHeader(next, st.Feed(b)) == (s1.Feed(b), r1))
  {
    if !next(st.buf).NeedMore? {
      assert next(st.buf + b) == next(st.buf);
      if next(st.buf).Got? {
        DropMore(st.buf, b, next(st.buf).nread);
      }
    }
  }

  lemma EnvelopeFeed(next: Unpacker, st: State, b: seq<Byte>)
    requires PrefixStable(next) && st.phase == Envelope
    ensures var (s1, r1) := StepEnvelope(next, st);
            && s1.Valid() && s1.phase in {Envelope, AwaitHeader, AwaitCount}
            && !r1.Done? && (s1.phase == AwaitCount ==> r1.Paused?)
            && (if r1.Paused? && BeforeHeader(s1.phase) then Step(next, st.Feed(b)) == Step(next, s1.Feed(b))
                else Step(next, st.Feed(b)) == (s1.Feed(b), r1))
  {
    var p := ParseArrayLen(st.buf);
    if !p.Insufficient? {
      ParseStable(st.buf, b);
      if p.Tag? {
        DropMore(st.buf, b, p.nread);
        if p.len == 2 {
          HeaderFeed(next, st.(buf := Drop(st.buf, p.nread), phase := AwaitHeader), b);
        }
      }
    }
  }

  /**
   * Bytes that arrive after a call might as well have arrived before it: either
   * the call was paused for lack of them, or it would have done the same. The
   * one exception is by design: the call that parses the header stops there.
   */
  lemma StepFeed(next: Unpacker, st: State, b: seq<Byte>)
    requires PrefixStable(next) && st.Valid()
    ensures var (s1, r1) := Step(next, st);
            && s1.Valid() && (BeforeHeader(s1.phase) ==> BeforeHeader(st.phase) && !r1.Done?)
            && (BeforeHeader(st.phase) ==> !r1.Done? && (!BeforeHeader(s1.phase) ==> HeaderPause(st, s1) && r1.Paused?))
            && (HeaderPause(st, s1) ==> s1.writers == st.writers)
            && (if r1.Paused? && !HeaderPause(st, s1) then Step(next, st.Feed(b)) == Step(next, s1.Feed(b))
                else Step(next, st.Feed(b)) == (s1.Feed(b), r1))
  {
    match st.phase
    case Envelope => EnvelopeFeed(next, st, b);
    case AwaitHeader => HeaderFeed(next, st, b);
    case AwaitCount => CountFeed(next, st, b);
    case AwaitBundles => BundlesFeed(next, st, b);
    case Finished =>
  }

  lemma FeedNothing(st: State)
    ensures st.Feed([]) == st
  {
    assert st.buf + [] == st.buf;
  }

  lemma FeedTwice(st: State, a: seq<Byte>, b: seq<Byte>)
    ensures st.Feed(a).Feed(b) == st.Feed(a + b)
  {
    assert st.buf + a + b == st.buf + (a + b);
  }

  /*
   * Any interleaving of buffering and processing
   */

  datatype Op = Feed(bytes: seq<Byte>) | Run

  function Bytes(ops: seq<Op>): seq<Byte> {
    if |ops| == 0 then [] else
      (match ops[0] case Feed(b) => b case Run => []) + Bytes(ops[1..])
  }

  /** Perform the operations in order, up to the first failure, and process what is left. */
  function Execute(next: Unpacker, st: State, ops: seq<Op>): (State, Status)
    requires st.Valid() && PrefixStable(next)
    decreases |ops|
  {
    if |ops| == 0 then Step(next, st)
    else
      match ops[0]
      case Feed(b) => Execute(next, st.Feed(b), ops[1..])
      case Run =>
        StepFeed(next, st, []);
        var (s1, r1) := Step(next, st);
        if r1.Failed? then (s1, r1) else Execute(next, s1, ops[1..])
  }

  /** Once the header is parsed, every interleaving ends as if everything was buffered first. */
  lemma {:induction false} InterleavingIrrelevant(next: Unpacker, st: State, ops: seq<Op>)
    requires PrefixStable(next) && st.Valid() && !BeforeHeader(st.phase)
    ensures var (s1, r1) := Execute(next, st, ops);
            var (s2, r2) := Step(next, st.Feed(Bytes(ops)));
            && r1 == r2 && s1.phase == s2.phase && s1.writers == s2.writers && s1.nbundles == s2.nbundles
            && (!r1.Failed? ==> s1 == s2)
    decreases |ops|
  {
    FeedNothing(st);
    if |ops| > 0 {
      var rest := Bytes(ops[1..]);
      match ops[0]
      case Feed(b) =>
        InterleavingIrrelevant(next, st.Feed(b), ops[1..]);
        FeedTwice(st, b, rest);
      case Run =>
        assert Bytes(ops) == rest;
        StepFeed(next, st, rest);
        var (s1, r1) := Step(next, st);
        if !r1.Failed? {
          InterleavingIrrelevant(next, s1, ops[1..]);
          if r1.Done? {
            DoneIsFinished(next, st);
          }
        }
    }
  }

  /** Done is returned when the bundles are all consumed, and never before. */
  lemma {:induction false} DoneIsFinished(next: Unpacker, st: State)
    requires st.Valid()
    ensures Step(next, st).1.Done? <==> Step(next, st).0.phase == Finished
    ensures Step(next, st).1.Done? && st.phase != Finished ==> Step(next, st).0.nbundles <= 0
    decreases Max(0, st.nbundles)
  {
    if st.phase == AwaitBundles {
      BundlesDone(next, st);
    } else if st.phase == AwaitCount {
      var p := ParseArrayLen(st.buf);
      if p.Tag? && p.len == st.head.value.nbundles {
        BundlesDone(next, st.(buf := Drop(st.buf, p.nread), nbundles := p.len, phase := AwaitBundles));
      }
    }
  }

  lemma {:induction false} BundlesDone(next: Unpacker, st: State)
    requires st.Valid() && st.phase == AwaitBundles
    ensures StepBundles(next, st).1.Done? <==> StepBundles(next, st).0.phase == Finished
    ensures StepBundles(next, st).1.Done? ==> StepBundles(next, st).0.nbundles <= 0
    decreases Max(0, st.nbundles)
  {
    var t := StepBundle(next, st);
    if t.Continue? {
      BundlesDone(next, t.state);
    }
  }

  /** Past the header, the header stays. */
  lemma HeadKept(next: Unpacker, st: State)
    requires st.Valid() && !BeforeHeader(st.phase)
    ensures Step(next, st).0.head == st.head
  {
    if st.phase == AwaitBundles {
      BundlesHeadKept(next, st);
    } else if st.phase == AwaitCount {
      var p := ParseArrayLen(st.buf);
      if p.Tag? && p.len == st.head.value.nbundles {
        BundlesHeadKept(next, st.(buf := Drop(st.buf, p.nread), nbundles := p.len, phase := AwaitBundles));
      }
    }
  }

  lemma {:induction false} BundlesHeadKept(next: Unpacker, st: State)
    requires st.Valid() && st.phase == AwaitBundles
    ensures StepBundles(next, st).0.head == st.head
    decreases Max(0, st.nbundles)
  {
    var t := StepBundle(next, st);
    if t.Continue? {
      BundlesHeadKept(next, t.state);
    }
  }

  /*
   * decode_stream
   */

  /** allocarrays: one zeroed buffer for every attribute that has a shape. */
  method AllocArrays(head: Header) returns (d: Option<map<string, array<Sample>>>)
    ensures d.None? <==> AllocatedFor(head).None?
    ensures d.Some? ==> DistinctArrays(d.value) && fresh(d.value.Values)
    ensures d.Some? ==> d.value.Keys == AllocatedFor(head).value.Keys
    ensures d.Some? ==> forall a :: a in d.value ==> d.value[a][..] == AllocatedFor(head).value[a]
  {
    var shapes := SplitShapes(head.shapes);
    var n := Min(|head.attributes|, |shapes|);
    var arrays: map<string, array<Sample>> := map[];
    for i := 0 to n
      invariant DistinctArrays(arrays) && fresh(arrays.Values)
      invariant Allocated(head.attributes, shapes, i).Some?
      invariant Mirrors(arrays, Allocated(head.attributes, shapes, i).value)
    {
      if !ShapeValid(shapes[i]) {
        AllocatedMono(head.attributes, shapes, i + 1, n);
        return None;
      }
      SamplesNat(shapes[i]);
      arrays := AddZeros(arrays, head.attributes[i], Samples(shapes[i]), Allocated(head.attributes, shapes, i).value);
    }
    return Some(arrays);
  }

  /** The arrays have these contents. */
  ghost predicate Mirrors(arrays: map<string, array<Sample>>, w: Writers)
    reads arrays.Values
  {
    arrays.Keys == w.Keys && forall a :: a in arrays ==> arrays[a][..] == w[a]
  }

  /** One more attribute gets a zeroed array of its own. */
  method AddZeros(arrays: map<string, array<Sample>>, a: string, n: nat, ghost w: Writers)
    returns (more: map<string, array<Sample>>)
    requires DistinctArrays(arrays) && Mirrors(arrays, w)
    ensures DistinctArrays(more) && fresh(more.Values - arrays.Values) && Mirrors(more, w[a := ZeroSamples(n)])
  {
    var zeros := NewZeros(n);
    Registered(arrays, a, zeros);
    more := arrays[a := zeros];
  }

  /** numpy.zeros */
  method NewZeros(n: nat) returns (zeros: array<Sample>)
    ensures fresh(zeros) && zeros[..] == ZeroSamples(n)
  {
    zeros := new Sample[n](_ => 0);
  }

  /** An array that is not there yet stays apart from the others. */
  lemma Registered(arrays: map<string, array<Sample>>, a: string, zeros: array<Sample>)
    requires DistinctArrays(arrays) && zeros !in arrays.Values
    ensures DistinctArrays(arrays[a := zeros])
    ensures arrays[a := zeros].Values <= arrays.Values + {zeros}
  {
    forall b | b in arrays
      ensures arrays[b] != zeros
    {
      assert arrays[b] in arrays.Values;
    }
  }

  lemma {:induction false} AllocatedMono(attributes: seq<string>, shapes: seq<seq<int>>, i: nat, n: nat)
    requires i <= n <= |attributes| && n <= |shapes| && Allocated(attributes, shapes, i).None?
    ensures Allocated(attributes, shapes, n).None?
    decreases n
  {
    if i < n {
      AllocatedMono(attributes, shapes, i, n - 1);
    }
  }

  ghost predicate DistinctArrays(m: map<string, array<Sample>>) {
    forall a, b :: a in m && b in m && a != b ==> m[a] != m[b]
  }

  /** Register every buffer; a dict is traversed in some order. */
  method RegisterAll(dec: StreamDecoder, d: map<string, array<Sample>>)
    requires dec.Valid() && dec.writers == map[] && DistinctArrays(d)
    modifies dec`writers
    ensures dec.Valid() && dec.writers == d
    ensures dec.Value() == old(dec.Value()).(writers := map a | a in d :: d[a][..])
  {
    var todo := d.Keys;
    while todo != {}
      invariant dec.Valid() && todo <= d.Keys
      invariant dec.writers == map a | a in d.Keys - todo :: d[a]
      decreases |todo|
    {
      var a :| a in todo;
      dec.RegisterWriter(a, d[a]);
      todo := todo - {a};
    }
    assert dec.writers == d;
  }

  /** The first loop of decode_stream: feed pieces until the header is there. */
  method ReadToHeader(dec: StreamDecoder, chunks: seq<seq<Byte>>) returns (i: nat, failed: Option<StreamError>)
    requires dec.Valid() && PrefixStable(dec.next) && dec.Value() == Initial && dec.writers == map[]
    modifies dec
    ensures dec.Valid() && dec.writers == map[] && i <= |chunks|
    ensures failed.Some? ==> DecodeAll(dec.next, Flatten(chunks)) == Broken(failed.value)
    ensures failed.None? ==>
              && dec.phase == AwaitCount
              && Step(dec.next, Initial.Feed(Flatten(chunks))) == (dec.Value().Feed(Flatten(chunks[i..])), Paused)
  {
    var next := dec.next;
    ghost var all := Flatten(chunks);
    i := 0;
    FeedNothing(Initial);
    while i < |chunks|
      invariant 0 <= i <= |chunks| && dec.Valid() && dec.writers == map[]
      invariant BeforeHeader(dec.phase)
      invariant Step(next, Initial.Feed(Flatten(chunks[..i]))) == (dec.Value(), Paused)
    {
      ghost var before, st := Flatten(chunks[..i]), dec.Value();
      CutAt(chunks, i);
      StepFeed(next, Initial.Feed(before), chunks[i]);
      FeedTwice(Initial, before, chunks[i]);
      var status := dec.BufferAndProcess(chunks[i]);
      i := i + 1;
      StepFeed(next, Initial.Feed(Flatten(chunks[..i])), Flatten(chunks[i..]));
      FeedTwice(Initial, Flatten(chunks[..i]), Flatten(chunks[i..]));
      if status.Failed? {
        return i, Some(Decoding(status.error));
      }
      var h := dec.GetHeader();
      if h.Some? {
        return i, None;
      }
    }
    assert chunks[..i] == chunks;
    return i, Some(HeaderMissing);
  }

  /** What is before, at and after piece i of a stream. */
  lemma CutAt(chunks: seq<seq<Byte>>, i: nat)
    requires i < |chunks|
    ensures Flatten(chunks[..i + 1]) == Flatten(chunks[..i]) + chunks[i]
    ensures Flatten(chunks[..i]) + Flatten(chunks[i..]) == Flatten(chunks)
    ensures Flatten(chunks[..i + 1]) + Flatten(chunks[i + 1..]) == Flatten(chunks)
  {
    var a, x := chunks[..i], chunks[i];
    FlattenSnoc(a, x);
    assert chunks[..i + 1] == a + [x];
    FlattenBetween(chunks, i);
    FlattenBetween(chunks, i + 1);
  }

  /**
   * decode_stream: the outcome depends on the bytes alone, not on the pieces
   * they come in. The stream is an iterator, as a response's content is: the
   * second loop goes on where the first one stopped. A list of pieces would be
   * read from its start again.
   */
  method DecodeStream(next: Unpacker, chunks: seq<seq<Byte>>) returns (out: Outcome)
    requires PrefixStable(next)
    ensures out == DecodeAll(next, Flatten(chunks))
  {
    var dec := new StreamDecoder(next);
    assert dec.writers == map[] by { assert dec.Contents().Keys == dec.writers.Keys; }
    var i, failed := ReadToHeader(dec, chunks);
    if failed.Some? {
      return Broken(failed.value);
    }
    out := DecodeRest(dec, chunks[i..]);
  }

  method DecodeRest(dec: StreamDecoder, chunks: seq<seq<Byte>>) returns (out: Outcome)
    requires dec.Valid() && PrefixStable(dec.next) && dec.phase == AwaitCount && dec.writers == map[]
    modifies dec
    ensures out == Resume(dec.next, old(dec.Value()).Feed(Flatten(chunks)))
  {
    var d := AllocArrays(dec.head.value);
    if d.None? {
      return Broken(BadShape);
    }
    RegisterAll(dec, d.value);
    assert dec.Contents() == AllocatedFor(dec.head.value).value;
    out := DecodeBody(dec, chunks);
  }

  /** The second loop of decode_stream, and the last call when the stream ends first. */
  method DecodeBody(dec: StreamDecoder, chunks: seq<seq<Byte>>) returns (out: Outcome)
    requires dec.Valid() && PrefixStable(dec.next) && dec.phase == AwaitCount
    modifies dec, dec.writers.Values
    ensures out == Finish(dec.next, old(dec.Value()).Feed(Flatten(chunks)))
  {
    var next := dec.next;
    ghost var start := dec.Value();
    FeedNothing(start);
    for i := 0 to |chunks|
      invariant dec.Valid() && dec.writers == old(dec.writers)
      invariant dec.head == start.head
      invariant dec.Value() == start.Feed(Flatten(chunks[..i]))
                || Step(next, start.Feed(Flatten(chunks[..i]))) == (dec.Value(), Paused)
    {
      CutAt(chunks, i);
      StepFeed(next, start.Feed(Flatten(chunks[..i])), chunks[i]);
      FeedTwice(start, Flatten(chunks[..i]), chunks[i]);
      var status := dec.BufferAndProcess(chunks[i]);
      HeadKept(next, start.Feed(Flatten(chunks[..i + 1])));
      StepFeed(next, start.Feed(Flatten(chunks[..i + 1])), Flatten(chunks[i + 1..]));
      FeedTwice(start, Flatten(chunks[..i + 1]), Flatten(chunks[i + 1..]));
      if status.Failed? {
        return Broken(Decoding(status.error));
      }
      if status.Done? {
        return Decoded(dec.head.value, dec.Contents());
      }
    }
    assert chunks[..|chunks|] == chunks;
    StepFeed(next, start.Feed(Flatten(chunks)), []);
    FeedNothing(start.Feed(Flatten(chunks)));
    FeedNothing(dec.Value());
    HeadKept(next, start.Feed(Flatten(chunks)));
    var status := dec.Process();
    match status {
      case Failed(e) => return Broken(Decoding(e));
      case Paused => return Broken(Incomplete);
      case Done => return Decoded(dec.head.value, dec.Contents());
    }
  }

  /*
   * Complete responses
   */

  /** Packing an object and unpacking it gives it back. */
  ghost predicate Encodes(enc: Object -> seq<Byte>, next: Unpacker) {
    forall o, rest :: next(enc(o) + rest) == Got(o, |enc(o)|)
  }

  /** The response as pack_with_envelope and the collector put it together. */
  function Response(enc: Object -> seq<Byte>, head: Header, bundles: seq<Object>): seq<Byte>
    requires 0 <= head.nbundles <= INT_MAX
  {
    PackEnvelope(enc, head) + Flatten(Map(enc, bundles))
  }

  function PackEnvelope(enc: Object -> seq<Byte>, head: Header): seq<Byte>
    requires 0 <= head.nbundles <= INT_MAX
  {
    PackArray(2) + (enc(HeaderObject(head)) + PackArray(head.nbundles))
  }

  /** Extracting the bundles one after the other. */
  function ExtractAll(kind: FunctionId, bundles: seq<Object>, writers: Writers): Extracted {
    if |bundles| == 0 then Wrote(writers)
    else
      match Extract(kind, bundles[0], writers)
      case Rejected(e) => Rejected(e)
      case Wrote(w) => ExtractAll(kind, bundles[1..], w)
  }

  lemma {:induction false} BundlesConsumed(
    next: Unpacker, enc: Object -> seq<Byte>, st: State, bundles: seq<Object>, w: Writers)
    requires PrefixStable(next) && Encodes(enc, next) && st.Valid() && st.phase == AwaitBundles
    requires st.nbundles == |bundles| && st.buf == Flatten(Map(enc, bundles))
    requires ExtractAll(st.head.value.kind, bundles, st.writers) == Wrote(w)
    ensures StepBundles(next, st) == (st.(phase := Finished, buf := [], nbundles := 0, writers := w), Done)
    decreases |bundles|
  {
    if |bundles| > 0 {
      var rest := Flatten(Map(enc, bundles[1..]));
      FlattenCons(enc(bundles[0]), Map(enc, bundles[1..]));
      assert Map(enc, bundles) == [enc(bundles[0])] + Map(enc, bundles[1..]);
      assert next(st.buf) == Got(bundles[0], |enc(bundles[0])|);
      assert Drop(st.buf, |enc(bundles[0])|) == rest;
      var t := StepBundle(next, st);
      BundlesConsumed(next, enc, t.state, bundles[1..], w);
    }
  }

  lemma DropConcat(a: seq<Byte>, b: seq<Byte>)
    ensures Drop(a + b, |a|) == b
  {}

  lemma HeaderConsumed(next: Unpacker, enc: Object -> seq<Byte>, head: Header, body: seq<Byte>)
    requires PrefixStable(next) && Encodes(enc, next)
    ensures Step(next, Initial.Feed(PackArray(2) + (enc(HeaderObject(head)) + body)))
            == (State(AwaitCount, body, 0, Some(head), map[]), Paused)
  {
    var rest := enc(HeaderObject(head)) + body;
    assert Initial.Feed(PackArray(2) + rest).buf == PackArray(2) + rest;
    ParsePacked(2, rest);
    DropConcat(PackArray(2), rest);
    assert next(rest) == Got(HeaderObject(head), |enc(HeaderObject(head))|);
    DropConcat(enc(HeaderObject(head)), body);
  }

  lemma BodyConsumed(
    next: Unpacker, enc: Object -> seq<Byte>, head: Header, bundles: seq<Object>, w0: Writers, w: Writers)
    requires PrefixStable(next) && Encodes(enc, next) && head.nbundles == |bundles| <= INT_MAX
    requires ExtractAll(head.kind, bundles, w0) == Wrote(w)
    ensures Step(next, State(AwaitCount, PackArray(|bundles|) + Flatten(Map(enc, bundles)), 0, Some(head), w0))
            == (State(Finished, [], 0, Some(head), w), Done)
  {
    var body := Flatten(Map(enc, bundles));
    ParsePacked(|bundles|, body);
    DropConcat(PackArray(|bundles|), body);
    BundlesConsumed(next, enc, State(AwaitBundles, body, |bundles|, Some(head), w0), bundles, w);
  }

  lemma ResponseParts(a: seq<Byte>, b: seq<Byte>, c: seq<Byte>, d: seq<Byte>)
    ensures (a + (b + c)) + d == a + (b + (c + d))
  {}

  /** A stream that ends well, and is then used up. */
  ghost predicate Complete(next: Unpacker, bytes: seq<Byte>) {
    var (s1, r1) := Step(next, Initial.Feed(bytes));
    && !r1.Failed? && s1.phase == AwaitCount && s1.head.Some? && AllocatedFor(s1.head.value).Some?
    && var (s2, r2) := Step(next, s1.(writers := AllocatedFor(s1.head.value).value)); r2.Done? && s2.buf == []
  }

  /** The outcome of a stream, from the two calls that look at all of it. */
  lemma OutcomeIs(
    next: Unpacker, bytes: seq<Byte>, head: Header, body: seq<Byte>, w: Writers, end: State, status: Status)
    requires Step(next, Initial.Feed(bytes)) == (State(AwaitCount, body, 0, Some(head), map[]), Paused)
    requires AllocatedFor(head) == Some(w) && Step(next, State(AwaitCount, body, 0, Some(head), w)) == (end, status)
    ensures DecodeAll(next, bytes)
            == match status
               case Failed(e) => Broken(Decoding(e))
               case Paused => Broken(Incomplete)
               case Done => Decoded(head, end.writers)
    ensures status.Done? && end.buf == [] ==> Complete(next, bytes)
  {}

  /** A complete response decodes to what its bundles write in the allocated buffers, and is used up. */
  lemma DecodeResponse(next: Unpacker, enc: Object -> seq<Byte>, head: Header, bundles: seq<Object>, w: Writers)
    requires PrefixStable(next) && Encodes(enc, next)
    requires head.nbundles == |bundles| <= INT_MAX && AllocatedFor(head).Some?
    requires ExtractAll(head.kind, bundles, AllocatedFor(head).value) == Wrote(w)
    ensures DecodeAll(next, Response(enc, head, bundles)) == Decoded(head, w)
    ensures Complete(next, Response(enc, head, bundles))
  {
    ResponseParts(PackArray(2), enc(HeaderObject(head)), PackArray(head.nbundles), Flatten(Map(enc, bundles)));
    HeaderConsumed(next, enc, head, PackArray(head.nbundles) + Flatten(Map(enc, bundles)));
    BodyConsumed(next, enc, head, bundles, AllocatedFor(head).value, w);
    OutcomeIs(next, Response(enc, head, bundles), head, PackArray(head.nbundles) + Flatten(Map(enc, bundles)),
      AllocatedFor(head).value, State(Finished, [], 0, Some(head), w), Done);
  }

  /** When a complete stream is cut short, it ends neither well nor in a decoding error. */
  lemma CutShort(next: Unpacker, part: seq<Byte>, rest: seq<Byte>, all: seq<Byte>)
    requires PrefixStable(next) && |rest| > 0 && Complete(next, all) && all == part + rest
    ensures DecodeAll(next, part) in {Broken(HeaderMissing), Broken(Incomplete)}
  {
    StepFeed(next, Initial.Feed(part), rest);
    FeedTwice(Initial, part, rest);
    var (s1, r1) := Step(next, Initial.Feed(part));
    if !r1.Failed? && s1.phase == AwaitCount {
      var w := AllocatedFor(s1.head.value).value;
      StepFeed(next, s1.(writers := w), rest);
      assert s1.(writers := w).Feed(rest) == s1.Feed(rest).(writers := w);
    }
  }

  /** Where the header object of a response ends. */
  function HeaderEnd(enc: Object -> seq<Byte>, head: Header): nat {
    |PackArray(2)| + |enc(HeaderObject(head))|
  }

  /** When the header is found, all of it was there. */
  lemma HeaderWasThere(
    next: Unpacker, enc: Object -> seq<Byte>, head: Header, body: seq<Byte>, part: seq<Byte>, rest: seq<Byte>)
    requires PrefixStable(next) && Encodes(enc, next)
    requires part + rest == PackArray(2) + (enc(HeaderObject(head)) + body)
    requires Step(next, Initial.Feed(part)).0.phase == AwaitCount
    ensures |part| >= HeaderEnd(enc, head)
  {
    HeaderConsumed(next, enc, head, body);
    StepFeed(next, Initial.Feed(part), rest);
    FeedTwice(Initial, part, rest);
    var s1 := Step(next, Initial.Feed(part)).0;
    assert s1.Feed(rest).buf == body;
    assert |part| + |rest| == HeaderEnd(enc, head) + |body|;
  }

  /** The header is found if and only if all of it is there. */
  lemma HeaderNeeded(next: Unpacker, enc: Object -> seq<Byte>, head: Header, body: seq<Byte>, k: nat)
    requires PrefixStable(next) && Encodes(enc, next)
    requires k <= |PackArray(2) + (enc(HeaderObject(head)) + body)|
    ensures var part := (PackArray(2) + (enc(HeaderObject(head)) + body))[..k];
            Step(next, Initial.Feed(part)).0.phase == AwaitCount <==> k >= HeaderEnd(enc, head)
  {
    var all := PackArray(2) + (enc(HeaderObject(head)) + body);
    if k >= HeaderEnd(enc, head) {
      assert all[..k] == PackArray(2) + (enc(HeaderObject(head)) + body[..k - HeaderEnd(enc, head)]);
      HeaderConsumed(next, enc, head, body[..k - HeaderEnd(enc, head)]);
    }
    if Step(next, Initial.Feed(all[..k])).0.phase == AwaitCount {
      assert all[..k] + all[k..] == all;
      HeaderWasThere(next, enc, head, body, all[..k], all[k..]);
    }
  }

  /**
   * A response that is cut short anywhere is never taken for a complete one, nor
   * for a broken one: it is known to end before the header, when it does, and
   * after the header otherwise.
   */
  lemma TruncatedResponse(
    next: Unpacker, enc: Object -> seq<Byte>, head: Header, bundles: seq<Object>, w: Writers, k: nat)
    requires PrefixStable(next) && Encodes(enc, next)
    requires head.nbundles == |bundles| <= INT_MAX && AllocatedFor(head).Some?
    requires ExtractAll(head.kind, bundles, AllocatedFor(head).value) == Wrote(w)
    requires k < |Response(enc, head, bundles)|
    ensures DecodeAll(next, Response(enc, head, bundles)[..k])
            == Broken(if k < HeaderEnd(enc, head) then HeaderMissing else Incomplete)
  {
    var body := PackArray(head.nbundles) + Flatten(Map(enc, bundles));
    ResponseParts(PackArray(2), enc(HeaderObject(head)), PackArray(head.nbundles), Flatten(Map(enc, bundles)));
    DecodeResponse(next, enc, head, bundles, w);
    CutAnywhere(next, Response(enc, head, bundles), k);
    HeaderNeeded(next, enc, head, body, k);
    CutKind(next, Response(enc, head, bundles)[..k]);
  }

  /** The two errors for a cut stream, told apart. */
  lemma CutKind(next: Unpacker, part: seq<Byte>)
    requires DecodeAll(next, part) in {Broken(HeaderMissing), Broken(Incomplete)}
    ensures DecodeAll(next, part) == Broken(HeaderMissing) <==>
            Step(next, Initial.Feed(part)).0.phase != AwaitCount
  {}

  lemma CutAnywhere(next: Unpacker, all: seq<Byte>, k: nat)
    requires PrefixStable(next) && Complete(next, all) && k < |all|
    ensures DecodeAll(next, all[..k]) in {Broken(HeaderMissing), Broken(Incomplete)}
  {
    var part, rest := all[..k], all[k..];
    assert all == part + rest && |rest| > 0;
    CutShort(next, part, rest, all);
  }

  /*
   * Broken responses
   */

  /** A stream that does not begin with the tag of an array of two. */
  lemma NoEnvelope(next: Unpacker, bytes: seq<Byte>)
    requires !ParseArrayLen(bytes).Insufficient?
    requires !(ParseArrayLen(bytes).Tag? && ParseArrayLen(bytes).len == 2)
    ensures DecodeAll(next, bytes)
            == Broken(Decoding(if ParseArrayLen(bytes).BadTag? then BadArrayTag else BadEnvelope))
  {
    assert Initial.Feed(bytes).buf == bytes;
  }

  /** The envelope holds something that is not a header, or nothing that can be unpacked. */
  lemma NoHeader(next: Unpacker, rest: seq<Byte>)
    requires !next(rest).NeedMore? && !(next(rest).Got? && next(rest).obj.HeaderObject?)
    ensures DecodeAll(next, PackArray(2) + rest)
            == Broken(Decoding(if next(rest).Malformed? then BadObject else NotAHeader))
  {
    assert Initial.Feed(PackArray(2) + rest).buf == PackArray(2) + rest;
    ParsePacked(2, rest);
    DropConcat(PackArray(2), rest);
  }

  /** The shapes in the header are not those of arrays. */
  lemma BadShapes(next: Unpacker, enc: Object -> seq<Byte>, head: Header, body: seq<Byte>)
    requires PrefixStable(next) && Encodes(enc, next) && AllocatedFor(head).None?
    ensures DecodeAll(next, PackArray(2) + (enc(HeaderObject(head)) + body)) == Broken(BadShape)
  {
    HeaderConsumed(next, enc, head, body);
  }

  /** As many bundles are announced twice, and the numbers differ. */
  lemma WrongCount(next: Unpacker, enc: Object -> seq<Byte>, head: Header, n: nat, rest: seq<Byte>)
    requires PrefixStable(next) && Encodes(enc, next) && AllocatedFor(head).Some?
    requires n <= INT_MAX && n != head.nbundles
    ensures DecodeAll(next, PackArray(2) + (enc(HeaderObject(head)) + (PackArray(n) + rest)))
            == Broken(Decoding(CountMismatch))
  {
    HeaderConsumed(next, enc, head, PackArray(n) + rest);
    ParsePacked(n, rest);
  }

  /** Some bundle is rejected: the stream ends in its error. */
  lemma RejectedResponse(next: Unpacker, enc: Object -> seq<Byte>, head: Header, bundles: seq<Object>, e: Error)
    requires PrefixStable(next) && Encodes(enc, next)
    requires head.nbundles == |bundles| <= INT_MAX && AllocatedFor(head).Some?
    requires ExtractAll(head.kind, bundles, AllocatedFor(head).value) == Rejected(e)
    ensures DecodeAll(next, Response(enc, head, bundles)) == Broken(Decoding(e))
  {
    var body := Flatten(Map(enc, bundles));
    ResponseParts(PackArray(2), enc(HeaderObject(head)), PackArray(head.nbundles), body);
    HeaderConsumed(next, enc, head, PackArray(head.nbundles) + body);
    var end := BodyRejected(next, enc, head, bundles, AllocatedFor(head).value, e);
    OutcomeIs(next, Response(enc, head, bundles), head, PackArray(head.nbundles) + body, AllocatedFor(head).value, end,
      Failed(e));
  }

  lemma BodyRejected(next: Unpacker, enc: Object -> seq<Byte>, head: Header, bundles: seq<Object>, w: Writers, e: Error)
    returns (end: State)
    requires PrefixStable(next) && Encodes(enc, next) && head.nbundles == |bundles| <= INT_MAX
    requires ExtractAll(head.kind, bundles, w) == Rejected(e)
    ensures Step(next, State(AwaitCount, PackArray(|bundles|) + Flatten(Map(enc, bundles)), 0, Some(head), w))
            == (end, Failed(e))
  {
    var body := Flatten(Map(enc, bundles));
    ParsePacked(|bundles|, body);
    DropConcat(PackArray(|bundles|), body);
    BundleRejected(next, enc, State(AwaitBundles, body, |bundles|, Some(head), w), bundles, e);
    end := Step(next, State(AwaitCount, PackArray(|bundles|) + body, 0, Some(head), w)).0;
  }

  lemma {:induction false} BundleRejected(
    next: Unpacker, enc: Object -> seq<Byte>, st: State, bundles: seq<Object>, e: Error)
    requires PrefixStable(next) && Encodes(enc, next) && st.Valid() && st.phase == AwaitBundles
    requires st.nbundles == |bundles| && st.buf == Flatten(Map(enc, bundles))
    requires ExtractAll(st.head.value.kind, bundles, st.writers) == Rejected(e)
    ensures StepBundles(next, st).1 == Failed(e)
    decreases |bundles|
  {
    var rest := Flatten(Map(enc, bundles[1..]));
    FlattenCons(enc(bundles[0]), Map(enc, bundles[1..]));
    assert Map(enc, bundles) == [enc(bundles[0])] + Map(enc, bundles[1..]);
    assert next(st.buf) == Got(bundles[0], |enc(bundles[0])|);
    assert Drop(st.buf, |enc(bundles[0])|) == rest;
    var t := StepBundle(next, st);
    if t.Continue? {
      BundleRejected(next, enc, t.state, bundles[1..], e);
    }
  }
}
