/**
 * Reading a blob like a file (blobread of python/oneseismic/internal/blobfs.py):
 * small reads are answered from a window that one larger download fills.
 */
module BlobReads {
  import opened Arith
  import opened ArrayTag
  import opened Lists
  import opened Messages

  datatype Whence = FromStart | FromHere | FromEnd | OtherWhence

  datatype Reply = Data(bytes: seq<Byte>) | Moved | ValueError

  /** A request to the blob store: from an offset on, a number of bytes or all of them. */
  datatype Download = Download(offset: nat, length: Option<nat>)

  class BlobRead {
    const blob: seq<Byte>
    const cacheSize: int
    var cacheBegin: int
    var cacheEnd: int
    var cache: Option<seq<Byte>>
    var pos: int
    ghost var downloads: seq<Download>

    /** The cache is what the blob has in the window, which may pass the end of the blob. */
    ghost predicate Valid()
      reads this
    {
      match cache
      case None => cacheBegin == cacheEnd == 0
      case Some(bytes) =>
        0 <= cacheBegin < |blob| && cacheBegin < cacheEnd && bytes == blob[cacheBegin..Min(cacheEnd, |blob|)]
    }

    constructor (blob: seq<Byte>, cacheSize: int)
      ensures Valid() && this.blob == blob && this.cacheSize == cacheSize && pos == 0 && downloads == []
    {
      this.blob, this.cacheSize := blob, cacheSize;
      cacheBegin, cacheEnd, cache, pos, downloads := 0, 0, None, 0, [];
    }

    /** download_blob(offset, length).readall(): as many of the bytes as there are. */
    method Fetch(offset: nat, length: Option<nat>) returns (bytes: seq<Byte>)
      requires offset < |blob|
      modifies `downloads
      ensures bytes == blob[offset..if length.Some? then Min(offset + length.value, |blob|) else |blob|]
      ensures downloads == old(downloads) + [Download(offset, length)]
    {
      downloads := downloads + [Download(offset, length)];
      bytes := blob[offset..if length.Some? then Min(offset + length.value, |blob|) else |blob|];
    }

    /** The next n bytes are in the window, with at least one byte to spare. */
    predicate Hit(n: int)
      reads this
    {
      cacheBegin <= pos && pos + n < cacheEnd
    }

    /** Have the next bytes in the window. */
    method Fill(nbytes: nat)
      requires Valid() && 0 <= pos && 0 < nbytes && pos + nbytes <= |blob|
      modifies `cache, `cacheBegin, `cacheEnd, `downloads
      ensures Valid() && cache.Some? && cacheBegin <= pos && pos + nbytes <= cacheEnd
      ensures downloads == if old(Hit(nbytes)) then old(downloads)
                           else old(downloads) + [Download(pos, Some(Max(cacheSize, nbytes)))]
    {
      var cacheHit := cacheBegin <= pos && pos + nbytes < cacheEnd;
      if !cacheHit {
        var readsize := Max(cacheSize, nbytes);
        var bytes := Fetch(pos, Some(readsize));
        cache, cacheBegin, cacheEnd := Some(bytes), pos, pos + readsize;
      }
    }

    /**
     * read(n): the bytes of the blob at the position, limited by its size, in
     * one download when they are not in the window, and in none when they are.
     */
    method Read(n: int) returns (r: Reply)
      requires Valid() && pos >= 0
      modifies this
      ensures Valid() && pos >= 0
      ensures var (reply, next) := PlainRead(blob, old(pos), n); r == reply && pos == next
      ensures n > 0 && old(pos) <= |blob| ==>
                pos == Min(old(pos) + n, |blob|) && r == Data(blob[old(pos)..pos])
      ensures n > 0 && old(pos) > |blob| ==> r == Data([]) && pos == old(pos)
      ensures n == -1 ==>
                r == Data(if old(pos) < |blob| then blob[old(pos)..] else []) && pos == Max(old(pos), |blob|)
      ensures n == 0 || n < -1 ==> r == ValueError && pos == old(pos)
      ensures n > 0 && old(pos) < |blob| ==>
                var nbytes := Min(|blob| - old(pos), n);
                downloads == if old(Hit(nbytes)) then old(downloads)
                             else old(downloads) + [Download(old(pos), Some(Max(cacheSize, nbytes)))]
    {
      if n == -1 {
        var bytes := ReadAll();
        return Data(bytes);
      }
      if n <= 0 {
        return ValueError;
      }
      if pos >= |blob| {
        return Data([]);
      }
      var nbytes := Min(|blob| - pos, n);
      Fill(nbytes);
      var s := pos - cacheBegin;
      var e := s + nbytes;
      var chunk := cache.value[s..e];
      SliceOfSlice(blob, cacheBegin, Min(cacheEnd, |blob|), s, e);
      pos := pos + |chunk|;
      return Data(chunk);
    }

    method ReadAll() returns (bytes: seq<Byte>)
      requires Valid() && pos >= 0
      modifies this
      ensures Valid() && cache == old(cache) && cacheBegin == old(cacheBegin) && cacheEnd == old(cacheEnd)
      ensures bytes == if old(pos) < |blob| then blob[old(pos)..] else []
      ensures pos == Max(old(pos), |blob|)
    {
      if pos >= |blob| {
        return [];
      }
      bytes := Fetch(pos, None);
      pos := |blob|;
    }

    /** seek: the position may be anywhere, also before the start. */
    method Seek(offset: int, whence: Whence) returns (r: Reply)
      requires Valid()
      modifies `pos
      ensures Valid()
      ensures var (reply, next) := PlainSeek(blob, old(pos), offset, whence); r == reply && pos == next
      ensures r == if whence == OtherWhence then ValueError else Moved
      ensures whence == FromStart ==> pos == offset
      ensures whence == FromHere ==> pos == old(pos) + offset
      ensures whence == FromEnd ==> pos == |blob| + offset
      ensures whence == OtherWhence ==> pos == old(pos)
    {
      match whence {
        case FromStart => pos := offset;
        case FromHere => pos := pos + offset;
        case FromEnd => pos := |blob| + offset;
        case OtherWhence => return ValueError;
      }
      return Moved;
    }
  }

  /*
   * The plain file
   */

  function PlainRead(blob: seq<Byte>, pos: int, n: int): (Reply, int)
    requires pos >= 0
  {
    if n == -1 then (Data(if pos < |blob| then blob[pos..] else []), Max(pos, |blob|))
    else if n <= 0 then (ValueError, pos)
    else if pos >= |blob| then (Data([]), pos)
    else (Data(blob[pos..Min(pos + n, |blob|)]), Min(pos + n, |blob|))
  }

  function PlainSeek(blob: seq<Byte>, pos: int, offset: int, whence: Whence): (Reply, int) {
    match whence
    case FromStart => (Moved, offset)
    case FromHere => (Moved, pos + offset)
    case FromEnd => (Moved, |blob| + offset)
    case OtherWhence => (ValueError, pos)
  }

  /** Two seeks from the position add up, and undo each other; a seek from elsewhere forgets the position. */
  lemma SeeksAdd(blob: seq<Byte>, pos: int, a: int, b: int)
    ensures PlainSeek(blob, PlainSeek(blob, pos, a, FromHere).1, b, FromHere) == PlainSeek(blob, pos, a + b, FromHere)
    ensures PlainSeek(blob, PlainSeek(blob, pos, a, FromHere).1, -a, FromHere).1 == pos
    ensures PlainSeek(blob, pos, a, FromStart) == PlainSeek(blob, 0, a, FromHere)
    ensures PlainSeek(blob, pos, a, FromEnd) == PlainSeek(blob, |blob|, a, FromHere)
  {}

  datatype Operation = Read(n: int) | ReadAll | Seek(offset: int, whence: Whence)

  /** One operation on a plain file; reading before the start of a file is not defined. */
  function Plain(blob: seq<Byte>, pos: int, op: Operation): Option<(Reply, int)> {
    match op
    case Read(n) => if pos < 0 then None else Some(PlainRead(blob, pos, n))
    case ReadAll => if pos < 0 then None else Some(PlainRead(blob, pos, -1))
    case Seek(offset, whence) => Some(PlainSeek(blob, pos, offset, whence))
  }

  /** The replies of a plain file, and where it ends up; None when it is read before its start. */
  function PlainRun(blob: seq<Byte>, pos: int, ops: seq<Operation>): Option<(seq<Reply>, int)>
    decreases |ops|
  {
    if |ops| == 0 then Some(([], pos))
    else
      match PlainRun(blob, pos, ops[..|ops| - 1])
      case None => None
      case Some((replies, at)) =>
        match Plain(blob, at, ops[|ops| - 1])
        case None => None
        case Some((reply, next)) => Some((replies + [reply], next))
  }

  lemma PlainRunStep(blob: seq<Byte>, pos: int, ops: seq<Operation>, i: nat)
    requires i < |ops| && PlainRun(blob, pos, ops[..i + 1]).Some?
    ensures PlainRun(blob, pos, ops[..i]).Some?
    ensures var (replies, at) := PlainRun(blob, pos, ops[..i]).value;
            Plain(blob, at, ops[i]).Some?
            && PlainRun(blob, pos, ops[..i + 1]).value
               == (replies + [Plain(blob, at, ops[i]).value.0], Plain(blob, at, ops[i]).value.1)
  {
    assert ops[..i + 1][..i] == ops[..i] && ops[..i + 1][i] == ops[i];
  }

  lemma {:induction false} PlainRunPrefix(blob: seq<Byte>, pos: int, ops: seq<Operation>, i: nat)
    requires i <= |ops| && PlainRun(blob, pos, ops).Some?
    ensures PlainRun(blob, pos, ops[..i]).Some?
    decreases |ops|
  {
    if i < |ops| {
      var front := ops[..|ops| - 1];
      PlainRunPrefix(blob, pos, front, i);
      assert front[..i] == ops[..i];
    } else {
      assert ops[..i] == ops;
    }
  }

  /** Any sequence of reads and seeks gets what a plain file gives, as long as it does not go before the start. */
  method Run(file: BlobRead, ops: seq<Operation>) returns (replies: seq<Reply>)
    requires file.Valid() && PlainRun(file.blob, file.pos, ops).Some?
    modifies file
    ensures file.Valid() && (replies, file.pos) == PlainRun(file.blob, old(file.pos), ops).value
  {
    replies := [];
    ghost var start := file.pos;
    for i := 0 to |ops|
      invariant file.Valid() && PlainRun(file.blob, start, ops[..i]) == Some((replies, file.pos))
    {
      PlainRunPrefix(file.blob, start, ops, i + 1);
      PlainRunStep(file.blob, start, ops, i);
      var r;
      match ops[i] {
        case Read(n) => r := file.Read(n);
        case ReadAll =>
          var bytes := file.ReadAll();
          r := Data(bytes);
        case Seek(offset, whence) => r := file.Seek(offset, whence);
      }
      replies := replies + [r];
    }
    assert ops[..|ops|] == ops;
  }

  /** k reads of n bytes, from the current position on. */
  function Reads(n: nat, k: nat): (r: seq<Operation>)
    ensures |r| == k && forall i :: 0 <= i < k ==> r[i] == Read(n)
  {
    seq(k, _ => Read(n))
  }

  /** The bytes of all replies, put together. */
  function Gathered(replies: seq<Reply>): seq<Byte> {
    if |replies| == 0 then []
    else
      Gathered(replies[..|replies| - 1])
      + match replies[|replies| - 1] case Data(bytes) => bytes case _ => []
  }

  /** One more read, after the position reached so far. */
  lemma OneMoreRead(blob: seq<Byte>, n: nat, ops: seq<Operation>, replies: seq<Reply>, at: nat)
    requires n > 0 && PlainRun(blob, 0, ops) == Some((replies, at)) && at <= |blob| && Gathered(replies) == blob[..at]
    ensures var (more, next) := PlainRun(blob, 0, ops + [Read(n)]).value;
            next == Min(at + n, |blob|) && Gathered(more) == blob[..next]
  {
    assert (ops + [Read(n)])[..|ops|] == ops;
    var (reply, next) := PlainRead(blob, at, n);
    assert (replies + [reply])[..|replies|] == replies;
    assert blob[..next] == blob[..at] + reply.bytes;
  }

  /** Reading a file in pieces of n bytes gives the whole file, piece by piece. */
  lemma {:induction false} ReadInPieces(blob: seq<Byte>, n: nat, k: nat)
    requires n > 0
    ensures PlainRun(blob, 0, Reads(n, k)).Some? && 0 <= k * n
    ensures var (replies, at) := PlainRun(blob, 0, Reads(n, k)).value;
            at == Min(k * n, |blob|) && Gathered(replies) == blob[..at]
  {
    if k > 0 {
      ReadInPieces(blob, n, k - 1);
      var (replies, at) := PlainRun(blob, 0, Reads(n, k - 1)).value;
      OneMoreRead(blob, n, Reads(n, k - 1), replies, at);
      assert Reads(n, k) == Reads(n, k - 1) + [Read(n)];
      MulDistrib(k - 1, 1, n);
    }
  }
}
