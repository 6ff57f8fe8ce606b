/**
 * Assembling the output of a query: whatever the order in which the bundles of
 * all tasks arrive, every attribute's buffer ends up with what its own bundles
 * write.
 */
module Assembly {
  import opened Arith
  import opened Lists
  import opened Cells
  import opened Messages
  import opened Extraction
  import opened Decoder
  import opened Stream
  import opened Partition
  import opened Plan

  /** The cells that a bundle writes in the buffer of an attribute. */
  function WritesFor(a: string, o: Object): seq<Write> {
    match o
    case SliceBundle(attribute, Some(tiles)) =>
      if attribute == a && forall k :: 0 <= k < |tiles| ==> TileReads(tiles[k]) then SliceWrites(tiles) else []
    case CurtainBundle(attribute, Some(body)) =>
      if attribute == a && BodyReads(body) then CurtainWrites(body) else []
    case _ => []
  }

  lemma WritesForCurtain(a: string, attribute: string, body: CurtainBody)
    requires BodyReads(body)
    ensures WritesFor(a, CurtainBundle(attribute, Some(body))) == if attribute == a then CurtainWrites(body) else []
  {}

  /** A bundle of the right kind that stays inside the buffer of its attribute. */
  predicate Accepted(kind: FunctionId, o: Object, writers: Writers) {
    match kind
    case SliceFunction =>
      o.SliceBundle? && (o.attribute in writers ==>
        o.tiles.Some? && TilesFit(o.tiles.value, |writers[o.attribute]|))
    case CurtainFunction =>
      o.CurtainBundle? && (o.attribute in writers ==>
        o.body.Some? && BodyFits(o.body.value, |writers[o.attribute]|))
  }

  ghost predicate SameSizes(w: Writers, w': Writers) {
    w.Keys == w'.Keys && forall a :: a in w ==> |w[a]| == |w'[a]|
  }

  lemma ExtractApplies(kind: FunctionId, o: Object, w: Writers)
    requires Accepted(kind, o, w)
    ensures Extract(kind, o, w).Wrote?
    ensures SameSizes(w, Extract(kind, o, w).writers)
    ensures forall a :: a in w ==> InBounds(WritesFor(a, o), |w[a]|)
    ensures forall a :: a in w ==> Extract(kind, o, w).writers[a] == Apply(w[a], WritesFor(a, o))
  {
    if o.SliceBundle? && o.attribute in w {
      SliceInBounds(o.tiles.value, |w[o.attribute]|);
    } else if o.CurtainBundle? && o.attribute in w {
      CurtainInBounds(o.body.value, Max(0, o.body.value.size), |w[o.attribute]|);
    }
  }

  /** Only what is not accepted is rejected: for leaving the buffer, or for being no such bundle. */
  lemma ExtractRejects(kind: FunctionId, o: Object, w: Writers)
    ensures Extract(kind, o, w).Rejected? <==> !Accepted(kind, o, w)
    ensures Extract(kind, o, w).Rejected? ==>
              Extract(kind, o, w).error
              == if (kind == SliceFunction && o.SliceBundle? && o.tiles.Some?)
                    || (kind == CurtainFunction && o.CurtainBundle? && o.body.Some?) then OutOfBuffer else BadBundle
  {}

  function AllWritesFor(a: string, bundles: seq<Object>): seq<Write> {
    Flatten(Map(o => WritesFor(a, o), bundles))
  }

  lemma AllWritesCons(a: string, bundles: seq<Object>)
    requires |bundles| > 0
    ensures AllWritesFor(a, bundles) == WritesFor(a, bundles[0]) + AllWritesFor(a, bundles[1..])
  {
    var f := (o: Object) => WritesFor(a, o);
    FlattenCons(f(bundles[0]), Map(f, bundles[1..]));
    assert Map(f, bundles) == [f(bundles[0])] + Map(f, bundles[1..]);
  }

  lemma AcceptedSizes(kind: FunctionId, bundles: seq<Object>, w: Writers, w': Writers)
    requires SameSizes(w, w') && forall k :: 0 <= k < |bundles| ==> Accepted(kind, bundles[k], w)
    ensures forall k :: 0 <= k < |bundles| ==> Accepted(kind, bundles[k], w')
  {}

  /** Accepted bundles are all extracted, and each buffer gets the writes meant for it, in order. */
  lemma {:induction false} ExtractAllApplies(kind: FunctionId, bundles: seq<Object>, w: Writers)
    requires forall k :: 0 <= k < |bundles| ==> Accepted(kind, bundles[k], w)
    ensures ExtractAll(kind, bundles, w).Wrote?
    ensures SameSizes(w, ExtractAll(kind, bundles, w).writers)
    ensures forall a :: a in w ==> InBounds(AllWritesFor(a, bundles), |w[a]|)
    ensures forall a :: a in w ==> ExtractAll(kind, bundles, w).writers[a] == Apply(w[a], AllWritesFor(a, bundles))
    decreases |bundles|
  {
    if |bundles| > 0 {
      ExtractApplies(kind, bundles[0], w);
      var w' := Extract(kind, bundles[0], w).writers;
      AcceptedSizes(kind, bundles, w, w');
      ExtractAllApplies(kind, bundles[1..], w');
      forall a | a in w
        ensures InBounds(AllWritesFor(a, bundles), |w[a]|)
        ensures ExtractAll(kind, bundles, w).writers[a] == Apply(w[a], AllWritesFor(a, bundles))
      {
        AllWritesCons(a, bundles);
        ApplyConcat(w[a], WritesFor(a, bundles[0]), AllWritesFor(a, bundles[1..]));
      }
    }
  }

  lemma AcceptedArrived(kind: FunctionId, bundles: seq<Object>, arrived: seq<Object>, w: Writers)
    requires Permutation(arrived, bundles) && forall k :: 0 <= k < |bundles| ==> Accepted(kind, bundles[k], w)
    ensures forall k :: 0 <= k < |arrived| ==> Accepted(kind, arrived[k], w)
  {
    forall k | 0 <= k < |arrived|
      ensures Accepted(kind, arrived[k], w)
    {
      assert arrived[k] in multiset(arrived);
      assert arrived[k] in bundles;
    }
  }

  /** The writes for an attribute are the same in every order of arrival. */
  lemma SameWrites(a: string, arrived: seq<Object>, bundles: seq<Object>)
    requires Permutation(arrived, bundles)
    ensures Permutation(AllWritesFor(a, arrived), AllWritesFor(a, bundles))
  {
    var f := (o: Object) => WritesFor(a, o);
    MapPermutation(f, arrived, bundles);
    FlattenPermutation(Map(f, arrived), Map(f, bundles));
  }

  /** When the bundles cover an attribute's target exactly, every order of arrival assembles it. */
  lemma Assembled(
    kind: FunctionId, bundles: seq<Object>, arrived: seq<Object>, w: Writers, a: string, target: seq<Sample>)
    requires Permutation(arrived, bundles) && forall k :: 0 <= k < |bundles| ==> Accepted(kind, bundles[k], w)
    requires a in w && |w[a]| == |target| && ExactCover(AllWritesFor(a, bundles), target)
    ensures ExtractAll(kind, arrived, w).Wrote?
    ensures a in ExtractAll(kind, arrived, w).writers && ExtractAll(kind, arrived, w).writers[a] == target
  {
    AcceptedArrived(kind, bundles, arrived, w);
    ExtractAllApplies(kind, arrived, w);
    SameWrites(a, arrived, bundles);
    ExactCoverApplied(w[a], AllWritesFor(a, arrived), target);
  }

  /** A buffer that no bundle is for stays as it was. */
  lemma Untouched(kind: FunctionId, bundles: seq<Object>, arrived: seq<Object>, w: Writers, a: string)
    requires Permutation(arrived, bundles) && forall k :: 0 <= k < |bundles| ==> Accepted(kind, bundles[k], w)
    requires a in w && forall k :: 0 <= k < |bundles| ==> WritesFor(a, bundles[k]) == []
    ensures ExtractAll(kind, arrived, w).Wrote?
    ensures a in ExtractAll(kind, arrived, w).writers && ExtractAll(kind, arrived, w).writers[a] == w[a]
  {
    AcceptedArrived(kind, bundles, arrived, w);
    ExtractAllApplies(kind, arrived, w);
    forall k | 0 <= k < |arrived|
      ensures WritesFor(a, arrived[k]) == []
    {
      assert arrived[k] in multiset(arrived);
      assert arrived[k] in bundles;
    }
    FlattenNone(Map(o => WritesFor(a, o), arrived));
    assert Apply(w[a], []) == w[a];
  }

  /*
   * The tasks of all outputs
   */

  /**
   * When the chunks of every output together write what the output is to write,
   * all tasks together write what all outputs are to write.
   */
  lemma {:induction false} AllPiecesWrite<Output, Id>(
    outputs: seq<Output>, idsOf: Output -> seq<Id>, assign: (Output, seq<Id>) -> Output, taskSize: nat, n: nat,
    writes: Output -> seq<Write>, whole: seq<seq<Write>>)
    requires taskSize > 0 && n <= |outputs| == |whole|
    requires forall i :: 0 <= i < |outputs| ==>
               Flatten(Map(writes, Pieces(outputs[i], assign, Chunks(idsOf(outputs[i]), taskSize)))) == whole[i]
    ensures Flatten(Map(writes, AllPieces(outputs, idsOf, assign, taskSize, n))) == FlattenTo(whole, n)
  {
    if n > 0 {
      AllPiecesWrite(outputs, idsOf, assign, taskSize, n - 1, writes, whole);
      var before := AllPieces(outputs, idsOf, assign, taskSize, n - 1);
      var last := Pieces(outputs[n - 1], assign, Chunks(idsOf(outputs[n - 1]), taskSize));
      MapConcat(writes, before, last);
      FlattenConcat(Map(writes, before), Map(writes, last));
    }
  }

  /** When every chunk of jobs writes what its jobs write, all chunks write what all jobs write. */
  lemma PiecesWrite<Output, Id>(
    output: Output, assign: (Output, seq<Id>) -> Output, chunks: seq<seq<Id>>,
    writes: Output -> seq<Write>, f: Id -> seq<Write>)
    requires forall k :: 0 <= k < |chunks| ==> writes(assign(output, chunks[k])) == Flatten(Map(f, chunks[k]))
    ensures Flatten(Map(writes, Pieces(output, assign, chunks))) == Flatten(Map(f, Flatten(chunks)))
  {
    FlattenPieces(f, chunks, |chunks|);
    assert Map(writes, Pieces(output, assign, chunks)) == Map((c: seq<Id>) => Flatten(Map(f, c)), chunks);
  }

  /** The jobs of a chunk are next to each other in the whole. */
  ghost predicate SegmentOf<Id>(part: seq<Id>, ids: seq<Id>) {
    exists lo, hi :: 0 <= lo <= hi <= |ids| && part == ids[lo..hi]
  }

  lemma ChunkOf<Id>(ids: seq<Id>, taskSize: nat, k: nat)
    requires taskSize > 0 && k < |Chunks(ids, taskSize)|
    ensures SegmentOf(Chunks(ids, taskSize)[k], ids)
  {
    ChunkAt(ids, taskSize, k);
  }

  lemma WholeSegment<Id>(ids: seq<Id>)
    ensures SegmentOf(ids, ids)
  {
    assert ids == ids[0..|ids|];
  }

  /** Every task is a piece of some output. */
  lemma {:induction false} PieceOf<Output, Id>(
    outputs: seq<Output>, idsOf: Output -> seq<Id>, assign: (Output, seq<Id>) -> Output, taskSize: nat, n: nat,
    k: nat) returns (i: nat, ids: seq<Id>)
    requires taskSize > 0 && n <= |outputs| && k < |AllPieces(outputs, idsOf, assign, taskSize, n)|
    ensures i < n && AllPieces(outputs, idsOf, assign, taskSize, n)[k] == assign(outputs[i], ids)
    ensures ids in Chunks(idsOf(outputs[i]), taskSize) && SegmentOf(ids, idsOf(outputs[i]))
  {
    var before := AllPieces(outputs, idsOf, assign, taskSize, n - 1);
    if k < |before| {
      i, ids := PieceOf(outputs, idsOf, assign, taskSize, n - 1, k);
    } else {
      i := n - 1;
      ids := Chunks(idsOf(outputs[i]), taskSize)[k - |before|];
      ChunkOf(idsOf(outputs[i]), taskSize, k - |before|);
    }
  }

  /*
   * The buffers a header asks for
   */

  /** Attribute i has a zeroed buffer of its shape. */
  ghost predicate Buffered(attributes: seq<string>, shapes: seq<seq<int>>, i: nat, w: Writers)
    requires i < |attributes| && i < |shapes|
  {
    attributes[i] in w && Samples(shapes[i]) >= 0 && w[attributes[i]] == ZeroSamples(Samples(shapes[i]))
  }

  predicate Distinct(attributes: seq<string>) {
    forall i, j :: 0 <= i < j < |attributes| ==> attributes[i] != attributes[j]
  }

  lemma OtherBuffer(attributes: seq<string>, shapes: seq<seq<int>>, i: nat, n: nat, w: Writers, zeros: seq<Sample>)
    requires i < n < |attributes| && n < |shapes| && Buffered(attributes, shapes, i, w) && Distinct(attributes)
    ensures Buffered(attributes, shapes, i, w[attributes[n] := zeros])
  {}

  lemma {:induction false} AllocatedSizes(attributes: seq<string>, shapes: seq<seq<int>>, n: nat)
    requires n <= |attributes| && n <= |shapes| && Distinct(attributes)
    requires forall i :: 0 <= i < |shapes| ==> ShapeValid(shapes[i])
    ensures Allocated(attributes, shapes, n).Some?
    ensures forall i :: 0 <= i < n ==> Buffered(attributes, shapes, i, Allocated(attributes, shapes, n).value)
  {
    if n > 0 {
      AllocatedSizes(attributes, shapes, n - 1);
      SamplesNat(shapes[n - 1]);
      var w, zeros := Allocated(attributes, shapes, n - 1).value, ZeroSamples(Samples(shapes[n - 1]));
      var next := w[attributes[n - 1] := zeros];
      forall i | 0 <= i < n - 1
        ensures Buffered(attributes, shapes, i, next)
      {
        OtherBuffer(attributes, shapes, i, n - 1, w, zeros);
      }
    }
  }

  /** Zeroed buffers for all announced attributes, of the announced shapes. */
  lemma AnnouncedBuffers(head: Header, k: nat)
    requires Distinct(head.attributes) && |SplitShapes(head.shapes)| == |head.attributes| && k < |head.attributes|
    requires forall i :: 0 <= i < |head.attributes| ==> ShapeValid(SplitShapes(head.shapes)[i])
    ensures AllocatedFor(head).Some?
    ensures Buffered(head.attributes, SplitShapes(head.shapes), k, AllocatedFor(head).value)
  {
    AllocatedSizes(head.attributes, SplitShapes(head.shapes), |head.attributes|);
  }

  /** An announced attribute that no bundle is for keeps its zeros. */
  lemma LeftZero(kind: FunctionId, head: Header, bundles: seq<Object>, arrived: seq<Object>, w: Writers, k: nat)
    requires Distinct(head.attributes) && |SplitShapes(head.shapes)| == |head.attributes| && k < |head.attributes|
    requires forall i :: 0 <= i < |head.attributes| ==> ShapeValid(SplitShapes(head.shapes)[i])
    requires AllocatedFor(head) == Some(w) && Permutation(arrived, bundles)
    requires forall j :: 0 <= j < |bundles| ==>
               Accepted(kind, bundles[j], w) && WritesFor(head.attributes[k], bundles[j]) == []
    ensures ExtractAll(kind, arrived, w).Wrote?
    ensures Buffered(head.attributes, SplitShapes(head.shapes), k, ExtractAll(kind, arrived, w).writers)
  {
    AnnouncedBuffers(head, k);
    Untouched(kind, bundles, arrived, w, head.attributes[k]);
  }

  /** The announced attributes that are not recorded have zeros. */
  ghost predicate UnrecordedZero(m: Manifest, head: Header, w: Writers) {
    var shapes := SplitShapes(head.shapes);
    forall k :: 1 <= k < |head.attributes| && k < |shapes| && !Recorded(m, head.attributes[k]) ==>
      Buffered(head.attributes, shapes, k, w)
  }

  /** The buffers for one shape for the data, and one shape for every attribute. */
  lemma HeaderBuffers(head: Header, attributes: seq<string>, data: seq<int>, attribute: seq<int>)
    requires Normalized(attributes) && ShapeValid(data) && ShapeValid(attribute)
    requires head.attributes == ["data"] + attributes
    requires head.shapes == ShapeList(data, attribute, |attributes|)
    ensures Samples(data) >= 0 && Samples(attribute) >= 0 && AllocatedFor(head).Some?
    ensures var w := AllocatedFor(head).value;
            && "data" in w && w["data"] == ZeroSamples(Samples(data))
            && forall a :: a in attributes ==> a in w && w[a] == ZeroSamples(Samples(attribute))
  {
    SamplesNat(data);
    SamplesNat(attribute);
    ShapesDecode(data, attribute, |attributes|);
    assert AllocatedFor(head) == Allocated(head.attributes, ShapesOf(data, attribute, |attributes|), |attributes| + 1);
    ListedBuffers(attributes, data, attribute, ["data"] + attributes, ShapesOf(data, attribute, |attributes|));
  }

  lemma ListedBuffers(
    attributes: seq<string>, data: seq<int>, attribute: seq<int>, names: seq<string>, shapes: seq<seq<int>>)
    requires Normalized(attributes) && ShapeValid(data) && ShapeValid(attribute)
    requires Samples(data) >= 0 && Samples(attribute) >= 0
    requires names == ["data"] + attributes && shapes == ShapesOf(data, attribute, |attributes|)
    ensures Allocated(names, shapes, |names|).Some?
    ensures var w := Allocated(names, shapes, |names|).value;
            && "data" in w && w["data"] == ZeroSamples(Samples(data))
            && forall a :: a in attributes ==> a in w && w[a] == ZeroSamples(Samples(attribute))
  {
    DistinctNames(attributes, names);
    AllocatedSizes(names, shapes, |names|);
    var w := Allocated(names, shapes, |names|).value;
    assert Buffered(names, shapes, 0, w);
    forall a | a in attributes
      ensures a in w && w[a] == ZeroSamples(Samples(attribute))
    {
      var i :| 0 <= i < |attributes| && attributes[i] == a;
      assert Buffered(names, shapes, i + 1, w);
    }
  }

  lemma DistinctNames(attributes: seq<string>, names: seq<string>)
    requires Normalized(attributes) && names == ["data"] + attributes
    ensures Distinct(names)
  {}
}
