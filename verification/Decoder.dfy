/**
 * The streaming decoder of core/src/decoder.cpp: a state machine that can be
 * paused between any two bytes of a response
 *
 *     array(2) header array(n) bundle bundle ...
 *
 * First as a function on values, then as the class that updates its fields and
 * copies samples in the buffers of its caller.
 */
module Decoder {
  import opened Arith
  import opened Cells
  import opened Messages
  import opened Extraction
  import opened ArrayTag

  /** What the unpacker makes of its buffer: the next complete object, if there is one. */
  datatype Unpacked = NeedMore | Malformed | Got(obj: Object, nread: nat)

  type Unpacker = seq<Byte> -> Unpacked

  /** An object is found, or found to be broken, in a prefix of the stream, whatever follows it. */
  ghost predicate PrefixStable(next: Unpacker) {
    && (forall s :: next(s).Got? ==> 0 < next(s).nread <= |s|)
    && (forall s, t :: !next(s).NeedMore? ==> next(s + t) == next(s))
  }

  datatype Phase = Envelope | AwaitHeader | AwaitCount | AwaitBundles | Finished

  datatype Error =
    | BadArrayTag | BadEnvelope | BadObject | NotAHeader | CountMismatch | BadBundle | OutOfBuffer

  datatype Status = Paused | Done | Failed(error: Error)

  type Writers = map<string, seq<Sample>>

  datatype State = State(phase: Phase, buf: seq<Byte>, nbundles: int, head: Option<Header>, writers: Writers) {
    predicate Valid() {
      phase in {AwaitCount, AwaitBundles, Finished} ==> head.Some?
    }

    function Feed(bytes: seq<Byte>): State {
      this.(buf := buf + bytes)
    }
  }

  const Initial := State(Envelope, [], 0, None, map[])

  datatype Extracted = Wrote(writers: Writers) | Rejected(error: Error)

  /** Extract one bundle. A bundle for an attribute without a writer is skipped. */
  function Extract(kind: FunctionId, bundle: Object, writers: Writers): Extracted {
    match kind
    case SliceFunction =>
      if !bundle.SliceBundle? then Rejected(BadBundle)
      else if bundle.attribute !in writers then Wrote(writers)
      else if bundle.tiles.None? then Rejected(BadBundle)
      else if !TilesFit(bundle.tiles.value, |writers[bundle.attribute]|) then Rejected(OutOfBuffer)
      else
        SliceInBounds(bundle.tiles.value, |writers[bundle.attribute]|);
        Wrote(writers[bundle.attribute := Apply(writers[bundle.attribute], SliceWrites(bundle.tiles.value))])
    case CurtainFunction =>
      if !bundle.CurtainBundle? then Rejected(BadBundle)
      else if bundle.attribute !in writers then Wrote(writers)
      else if bundle.body.None? then Rejected(BadBundle)
      else if !BodyFits(bundle.body.value, |writers[bundle.attribute]|) then Rejected(OutOfBuffer)
      else
        CurtainInBounds(bundle.body.value, Max(0, bundle.body.value.size), |writers[bundle.attribute]|);
        Wrote(writers[bundle.attribute := Apply(writers[bundle.attribute], CurtainWrites(bundle.body.value))])
  }

  /** One turn of the bundle loop: either it stops, or there is a state to go on from. */
  datatype Turn = Stop(state: State, status: Status) | Continue(state: State)

  function StepBundle(next: Unpacker, st: State): (t: Turn)
    requires st.Valid() && st.phase == AwaitBundles
    ensures t.state.Valid()
    ensures t.Continue? ==> t.state.phase == AwaitBundles && t.state.nbundles == st.nbundles - 1 >= 0
  {
    if st.nbundles <= 0 then Stop(st.(phase := Finished), Done) else
      match next(st.buf)
      case NeedMore => Stop(st, Paused)
      case Malformed => Stop(st, Failed(BadObject))
      case Got(obj, n) =>
        var rest := st.(buf := Drop(st.buf, n));
        match Extract(st.head.value.kind, obj, st.writers)
        case Rejected(e) => Stop(rest, Failed(e))
        case Wrote(w) => Continue(rest.(nbundles := st.nbundles - 1, writers := w))
  }

  function StepBundles(next: Unpacker, st: State): (State, Status)
    requires st.Valid() && st.phase == AwaitBundles
    decreases Max(0, st.nbundles)
  {
    match StepBundle(next, st)
    case Stop(s, status) => (s, status)
    case Continue(s) => StepBundles(next, s)
  }

  function Drop(s: seq<Byte>, n: nat): seq<Byte> {
    if n <= |s| then s[n..] else []
  }

  function StepCount(next: Unpacker, st: State): (State, Status)
    requires st.Valid() && st.phase == AwaitCount
  {
    match ParseArrayLen(st.buf)
    case Insufficient => (st, Paused)
    case BadTag => (st, Failed(BadArrayTag))
    case Tag(len, n) =>
      var counted := st.(buf := Drop(st.buf, n), nbundles := len);
      if len != st.head.value.nbundles then (counted, Failed(CountMismatch))
      else StepBundles(next, counted.(phase := AwaitBundles))
  }

  /** Parsing the header always gives back control. */
  function StepHeader(next: Unpacker, st: State): (State, Status)
    requires st.phase == AwaitHeader
  {
    match next(st.buf)
    case NeedMore => (st, Paused)
    case Malformed => (st, Failed(BadObject))
    case Got(obj, n) =>
      var rest := st.(buf := Drop(st.buf, n));
      match obj
      case HeaderObject(head) => (rest.(head := Some(head), phase := AwaitCount), Paused)
      case _ => (rest, Failed(NotAHeader))
  }

  function StepEnvelope(next: Unpacker, st: State): (State, Status)
    requires st.phase == Envelope
  {
    match ParseArrayLen(st.buf)
    case Insufficient => (st, Paused)
    case BadTag => (st, Failed(BadArrayTag))
    case Tag(len, n) =>
      var rest := st.(buf := Drop(st.buf, n));
      if len != 2 then (rest, Failed(BadEnvelope)) else StepHeader(next, rest.(phase := AwaitHeader))
  }

  function Step(next: Unpacker, st: State): (State, Status)
    requires st.Valid()
  {
    match st.phase
    case Envelope => StepEnvelope(next, st)
    case AwaitHeader => StepHeader(next, st)
    case AwaitCount => StepCount(next, st)
    case AwaitBundles => StepBundles(next, st)
    case Finished => (st, Done)
  }

  class StreamDecoder {
    const next: Unpacker
    var buf: seq<Byte>
    var phase: Phase
    var nbundles: int
    var head: Option<Header>
    var writers: map<string, array<Sample>>

    /** No two attributes share a buffer, and the header is there once it was parsed. */
    ghost predicate Valid()
      reads this
    {
      && (forall a, b :: a in writers && b in writers && a != b ==> writers[a] != writers[b])
      && (phase in {AwaitCount, AwaitBundles, Finished} ==> head.Some?)
    }

    function Contents(): Writers
      reads this`writers, writers.Values
    {
      map a | a in writers :: writers[a][..]
    }

    ghost function Value(): (s: State)
      requires Valid()
      reads this, writers.Values
      ensures s.Valid()
    {
      State(phase, buf, nbundles, head, Contents())
    }

    constructor (next: Unpacker)
      ensures Valid() && this.next == next && Value() == Initial
    {
      this.next := next;
      buf, phase, nbundles, head, writers := [], Envelope, 0, None, map[];
    }

    /** decoder::header: there is one once it is parsed. */
    method GetHeader() returns (h: Option<Header>)
      requires Valid()
      ensures h == if phase in {Envelope, AwaitHeader} then None else head
      ensures h.Some? <==> phase !in {Envelope, AwaitHeader}
    {
      match phase
      case Envelope => h := None;
      case AwaitHeader => h := None;
      case _ => h := head;
    }

    method Reset()
      modifies this
      ensures Valid() && Value() == Initial
    {
      buf, phase, nbundles, head, writers := [], Envelope, 0, None, map[];
    }

    method RegisterWriter(attribute: string, data: array<Sample>)
      requires Valid() && data !in writers.Values
      modifies this`writers
      ensures Valid() && writers == old(writers)[attribute := data]
      ensures Value() == old(Value()).(writers := old(Contents())[attribute := data[..]])
    {
      writers := writers[attribute := data];
    }

    method Buffer(input: seq<Byte>)
      requires Valid()
      modifies this`buf
      ensures Valid() && Value() == old(Value()).Feed(input)
    {
      if |input| > 0 {
        buf := buf + input;
      }
    }

    method BufferAndProcess(input: seq<Byte>) returns (s: Status)
      requires Valid() && PrefixStable(next)
      modifies this, writers.Values
      ensures Valid() && writers == old(writers)
      ensures (Value(), s) == Step(next, old(Value()).Feed(input))
    {
      Buffer(input);
      s := Process();
    }

    /** The state machine: every phase falls through to the next, except that the header always pauses. */
    method Process() returns (s: Status)
      requires Valid() && PrefixStable(next)
      modifies this, writers.Values
      ensures Valid() && writers == old(writers)
      ensures (Value(), s) == Step(next, old(Value()))
    {
      match phase {
        case Envelope =>
          var stopped := ReadEnvelope();
          if stopped.Some? {
            return stopped.value;
          }
          s := ReadHeader();
        case AwaitHeader =>
          s := ReadHeader();
        case AwaitCount =>
          var stopped := ReadCount();
          if stopped.Some? {
            return stopped.value;
          }
          s := DrainBundles();
        case AwaitBundles =>
          s := DrainBundles();
        case Finished =>
          s := Done;
      }
    }

    method ReadEnvelope() returns (s: Option<Status>)
      requires Valid() && phase == Envelope
      modifies this`buf, this`phase
      ensures Valid()
      ensures s.Some? ==> StepEnvelope(next, old(Value())) == (Value(), s.value)
      ensures s.None? ==> phase == AwaitHeader && StepEnvelope(next, old(Value())) == StepHeader(next, Value())
    {
      match ParseArrayLen(buf) {
        case Insufficient => return Some(Paused);
        case BadTag => return Some(Failed(BadArrayTag));
        case Tag(len, n) =>
          buf := buf[n..];
          if len != 2 {
            return Some(Failed(BadEnvelope));
          }
          phase := AwaitHeader;
          return None;
      }
    }

    method ReadHeader() returns (s: Status)
      requires Valid() && phase == AwaitHeader && PrefixStable(next)
      modifies this`buf, this`phase, this`head
      ensures Valid()
      ensures (Value(), s) == StepHeader(next, old(Value()))
    {
      var u := next(buf);
      match u {
        case NeedMore => return Paused;
        case Malformed => return Failed(BadObject);
        case Got(obj, n) =>
          buf := buf[n..];
          if !obj.HeaderObject? {
            return Failed(NotAHeader);
          }
          head := Some(obj.header);
          phase := AwaitCount;
          return Paused;
      }
    }

    method ReadCount() returns (s: Option<Status>)
      requires Valid() && phase == AwaitCount
      modifies this`buf, this`phase, this`nbundles
      ensures Valid()
      ensures s.Some? ==> StepCount(next, old(Value())) == (Value(), s.value)
      ensures s.None? ==> phase == AwaitBundles && StepCount(next, old(Value())) == StepBundles(next, Value())
    {
      match ParseArrayLen(buf) {
        case Insufficient => return Some(Paused);
        case BadTag => return Some(Failed(BadArrayTag));
        case Tag(len, n) =>
          buf := buf[n..];
          nbundles := len;
          if nbundles != head.value.nbundles {
            return Some(Failed(CountMismatch));
          }
          phase := AwaitBundles;
          return None;
      }
    }

    method DrainBundles() returns (s: Status)
      requires Valid() && PrefixStable(next) && phase == AwaitBundles
      modifies this, writers.Values
      ensures Valid() && writers == old(writers)
      ensures (Value(), s) == StepBundles(next, old(Value()))
    {
      while nbundles > 0
        invariant Valid() && writers == old(writers) && phase == AwaitBundles
        invariant StepBundles(next, Value()) == StepBundles(next, old(Value()))
        decreases nbundles
      {
        var stopped := DrainOne();
        if stopped.Some? {
          return stopped.value;
        }
      }
      phase := Finished;
      return Done;
    }

    method DrainOne() returns (s: Option<Status>)
      requires Valid() && PrefixStable(next) && phase == AwaitBundles && nbundles > 0
      modifies this, writers.Values
      ensures Valid() && writers == old(writers)
      ensures StepBundle(next, old(Value())) == if s.Some? then Stop(Value(), s.value) else Continue(Value())
    {
      var u := next(buf);
      if u.NeedMore? {
        return Some(Paused);
      }
      if u.Malformed? {
        return Some(Failed(BadObject));
      }
      buf := buf[u.nread..];
      var e := ExtractBundle(u.obj);
      if e.Some? {
        return Some(Failed(e.value));
      }
      nbundles := nbundles - 1;
      return None;
    }

    method ExtractBundle(bundle: Object) returns (e: Option<Error>)
      requires Valid() && head.Some?
      modifies writers.Values
      ensures Valid() && writers == old(writers)
      ensures match Extract(head.value.kind, bundle, old(Contents()))
              case Wrote(w) => e == None && Contents() == w
              case Rejected(x) => e == Some(x) && Contents() == old(Contents())
    {
      match head.value.kind {
        case SliceFunction =>
          if !bundle.SliceBundle? {
            return Some(BadBundle);
          }
          if bundle.attribute !in writers {
            return None;
          }
          if bundle.tiles.None? {
            return Some(BadBundle);
          }
          var dst := writers[bundle.attribute];
          if !TilesFit(bundle.tiles.value, dst.Length) {
            return Some(OutOfBuffer);
          }
          ExtractSlice(dst, bundle.tiles.value);
          return None;
        case CurtainFunction =>
          if !bundle.CurtainBundle? {
            return Some(BadBundle);
          }
          if bundle.attribute !in writers {
            return None;
          }
          if bundle.body.None? {
            return Some(BadBundle);
          }
          var dst := writers[bundle.attribute];
          if !BodyFits(bundle.body.value, dst.Length) {
            return Some(OutOfBuffer);
          }
          ExtractCurtain(dst, bundle.body.value);
          return None;
      }
    }
  }
}
