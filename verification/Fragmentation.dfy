/** `Bundle::fragment`: cutting a bundle into fragments of at most a given encoded size (section 5.8 of RFC 9171). */
module Fragmentation {
  import opened Bytes
  import opened Cbor
  import opened Bundle

  const BUNDLE_SERIALIZATION_OVERHEAD: nat := 2
  const PAYLOAD_BLOCK_SERIALIZATION_OVERHEAD: nat := 128

  datatype FragmentationError = MustNotFragment | BundleInvalid | CanNotFragmentThatSmall(minimum: nat)

  datatype FragmentOutcome =
    | Fragments(fragments: seq<Bundle>, firstMinimum: nat, minimum: nat)
    | Refused(error: FragmentationError)
    | FragmentPanics

  // ----- the blocks of a bundle

  predicate IsPayload(b: CanonicalBlock) {
    b.block.Payload?
  }

  /** All blocks but payloads, in order. */
  function NonPayload(bs: seq<CanonicalBlock>): (r: seq<CanonicalBlock>)
    ensures forall k :: 0 <= k < |r| ==> r[k] in bs && !IsPayload(r[k])
  {
    if bs == [] then [] else (if IsPayload(bs[0]) then [] else [bs[0]]) + NonPayload(bs[1..])
  }

  /** The blocks every fragment but the first carries: those *without* the replicate flag. */
  function Copied(bs: seq<CanonicalBlock>): (r: seq<CanonicalBlock>)
    ensures forall k :: 0 <= k < |r| ==> r[k] in bs && !IsPayload(r[k])
  {
    if bs == [] then []
    else (if IsPayload(bs[0]) || bs[0].flags.mustReplicate then [] else [bs[0]]) + Copied(bs[1..])
  }

  /** The first payload block. */
  function PayloadBlock(bs: seq<CanonicalBlock>): (r: Option<CanonicalBlock>)
    ensures r.Some? ==> r.value in bs && IsPayload(r.value)
  {
    if bs == [] then None else if IsPayload(bs[0]) then Some(bs[0]) else PayloadBlock(bs[1..])
  }

  function BlockSize(b: CanonicalBlock): nat
    requires CanonicalFits(b)
  {
    |EncodeBlock(b)|
  }

  /** Encoded size of the blocks other than payloads. */
  function OtherSize(bs: seq<CanonicalBlock>): nat
    requires BlocksFit(bs)
  {
    if bs == [] then 0 else (if IsPayload(bs[0]) then 0 else BlockSize(bs[0])) + OtherSize(bs[1..])
  }

  /** Encoded size of the blocks other than payloads *with* the replicate flag. */
  function ReplicatedSize(bs: seq<CanonicalBlock>): (n: nat)
    requires BlocksFit(bs)
    ensures n <= OtherSize(bs)
  {
    if bs == [] then 0
    else (if IsPayload(bs[0]) || !bs[0].flags.mustReplicate then 0 else BlockSize(bs[0])) + ReplicatedSize(bs[1..])
  }

  // ----- the fragments

  function FirstMinimum(b: Bundle): nat
    requires BundleFits(b)
  {
    |EncodePrimary(b.primary)| + PAYLOAD_BLOCK_SERIALIZATION_OVERHEAD + BUNDLE_SERIALIZATION_OVERHEAD
    + OtherSize(b.blocks)
  }

  function Minimum(b: Bundle): (n: nat)
    requires BundleFits(b)
    ensures n <= FirstMinimum(b)
  {
    |EncodePrimary(b.primary)| + PAYLOAD_BLOCK_SERIALIZATION_OVERHEAD + BUNDLE_SERIALIZATION_OVERHEAD
    + ReplicatedSize(b.blocks)
  }

  /** Where the payload of b starts in the payload of the bundle it is a fragment of. */
  function GlobalOffset(b: Bundle): u64 {
    if b.primary.fragmentOffset.Some? then b.primary.fragmentOffset.value else 0
  }

  predicate HasPayload(b: Bundle) {
    PayloadBlock(b.blocks).Some?
  }

  function PayloadData(b: Bundle): bytes
    requires HasPayload(b)
  {
    PayloadBlock(b.blocks).value.block.data
  }

  function TotalLength(b: Bundle): u64
    requires BundleFits(b) && HasPayload(b)
  {
    if b.primary.totalDataLength.Some? then b.primary.totalDataLength.value else |PayloadData(b)|
  }

  /** The fragment with `length` payload bytes from position `at` of the payload of b. */
  function Piece(b: Bundle, at: nat, length: nat): (f: Bundle)
    requires BundleFits(b) && HasPayload(b) && at + length <= |PayloadData(b)|
    requires GlobalOffset(b) + at < 0x1_0000_0000_0000_0000
    ensures BundleFits(f)
  {
    Bundle(b.primary.(flags := b.primary.flags.(fragment := true), fragmentOffset := Some(GlobalOffset(b) + at),
                      totalDataLength := Some(TotalLength(b))),
           (if at == 0 then NonPayload(b.blocks) else Copied(b.blocks))
           + [PayloadBlock(b.blocks).value.(block := Payload(PayloadData(b)[at..at + length]))])
  }

  function PieceLength(b: Bundle, maxSize: nat, at: nat): int
    requires BundleFits(b) && HasPayload(b)
  {
    Min(|PayloadData(b)| - at, maxSize - (if at == 0 then FirstMinimum(b) else Minimum(b)))
  }

  /** The fragment at payload position `at`; `None` is a panic: an offset beyond 64 bits, an empty fragment, or one
      that is larger than asked for. */
  function NextPiece(b: Bundle, maxSize: nat, at: nat): (p: Option<Bundle>)
    requires BundleFits(b) && HasPayload(b) && at < |PayloadData(b)|
    ensures p.Some? ==> 1 <= PieceLength(b, maxSize, at) <= |PayloadData(b)| - at
  {
    var length := PieceLength(b, maxSize, at);
    if GlobalOffset(b) + at >= 0x1_0000_0000_0000_0000 || length < 1 then None
    else if |EncodeBundle(Piece(b, at, length))| > maxSize then None
    else Some(Piece(b, at, length))
  }

  /** The fragments from payload position `at` on, or `None` if there is a panic on the way. */
  function Cut(b: Bundle, maxSize: nat, at: nat): Option<seq<Bundle>>
    requires BundleFits(b) && HasPayload(b)
    decreases |PayloadData(b)| - at
  {
    hide NextPiece;
    if at >= |PayloadData(b)| then Some([]) else
    match NextPiece(b, maxSize, at)
    case None => None
    case Some(piece) =>
      match Cut(b, maxSize, at + PieceLength(b, maxSize, at))
      case None => None
      case Some(rest) => Some([piece] + rest)
  }

  /** `fragment`.  A bundle that cannot be encoded at all, or needs no fragmentation, is a panic. */
  function Fragment(b: Bundle, maxSize: nat): FragmentOutcome {
    if !BundleFits(b) || |EncodeBundle(b)| <= maxSize then FragmentPanics
    else if b.primary.flags.mustNotFragment then Refused(MustNotFragment)
    else if b.primary.flags.fragment && (b.primary.fragmentOffset.None? || b.primary.totalDataLength.None?) then
      Refused(BundleInvalid)
    else if FirstMinimum(b) > maxSize || Minimum(b) > maxSize then Refused(CanNotFragmentThatSmall(FirstMinimum(b)))
    else if !HasPayload(b) then FragmentPanics
    else match Cut(b, maxSize, 0)
         case None => FragmentPanics
         case Some(fs) => Fragments(fs, FirstMinimum(b), Minimum(b))
  }

  // ----- the loops

  /** The two minimum sizes, summed over the blocks. */
  method MeasureBlocks(b: Bundle) returns (first: nat, later: nat)
    requires BundleFits(b)
    ensures first == FirstMinimum(b) && later == Minimum(b)
  {
    hide EncodePrimary, EncodeBlock;
    first := |EncodePrimary(b.primary)| + PAYLOAD_BLOCK_SERIALIZATION_OVERHEAD + BUNDLE_SERIALIZATION_OVERHEAD;
    later := first;
    for i := 0 to |b.blocks|
      invariant first + OtherSize(b.blocks[i..]) == FirstMinimum(b)
      invariant later + ReplicatedSize(b.blocks[i..]) == Minimum(b)
    {
      var block := b.blocks[i];
      assert b.blocks[i..][0] == block && b.blocks[i..][1..] == b.blocks[i + 1..];
      if !IsPayload(block) {
        first := first + BlockSize(block);
        if block.flags.mustReplicate {
          later := later + BlockSize(block);
        }
      }
    }
  }

  lemma CutStep(b: Bundle, maxSize: nat, at: nat)
    requires BundleFits(b) && HasPayload(b) && at <= |PayloadData(b)|
    ensures at == |PayloadData(b)| ==> Cut(b, maxSize, at) == Some([])
    ensures at < |PayloadData(b)| && Cut(b, maxSize, at).Some? ==>
              && NextPiece(b, maxSize, at).Some? && Cut(b, maxSize, at + PieceLength(b, maxSize, at)).Some?
              && Cut(b, maxSize, at).value
                 == [NextPiece(b, maxSize, at).value] + Cut(b, maxSize, at + PieceLength(b, maxSize, at)).value
  {
    hide NextPiece, PieceLength, PayloadBlock, BundleFits;
  }

  lemma NextPieceIs(b: Bundle, maxSize: nat, at: nat)
    requires BundleFits(b) && HasPayload(b) && at < |PayloadData(b)| && NextPiece(b, maxSize, at).Some?
    ensures GlobalOffset(b) + at < 0x1_0000_0000_0000_0000
    ensures NextPiece(b, maxSize, at).value == Piece(b, at, PieceLength(b, maxSize, at))
  {
    hide Piece, PieceLength, EncodeBundle, PayloadBlock, BundleFits;
  }

  /** The cutting loop. */
  method CutPayload(b: Bundle, maxSize: nat, first: nat, later: nat) returns (fragments: seq<Bundle>)
    requires BundleFits(b) && HasPayload(b) && Cut(b, maxSize, 0).Some?
    requires first == FirstMinimum(b) && later == Minimum(b)
    ensures Cut(b, maxSize, 0) == Some(fragments)
  {
    hide EncodeBundle, FirstMinimum, Minimum, NonPayload, Copied, BundleFits, PayloadBlock, Cut, NextPiece;
    var payload := PayloadBlock(b.blocks).value;
    var data := payload.block.data;
    var primary := b.primary.(flags := b.primary.flags.(fragment := true), fragmentOffset := Some(0),
                              totalDataLength := Some(TotalLength(b)));
    fragments := [];
    var at := 0;
    while at < |data|
      invariant 0 <= at <= |data| && Cut(b, maxSize, at).Some?
      invariant Cut(b, maxSize, 0).value == fragments + Cut(b, maxSize, at).value
    {
      CutStep(b, maxSize, at);
      NextPieceIs(b, maxSize, at);
      var blocks := if at == 0 then NonPayload(b.blocks) else Copied(b.blocks);
      var length := Min(|data| - at, maxSize - (if at == 0 then first else later));
      var piece := Bundle(primary.(fragmentOffset := Some(GlobalOffset(b) + at)),
                          blocks + [payload.(block := Payload(data[at..at + length]))]);
      assert piece == Piece(b, at, length);
      assert fragments + ([piece] + Cut(b, maxSize, at + length).value)
             == fragments + [piece] + Cut(b, maxSize, at + length).value;
      fragments := fragments + [piece];
      at := at + length;
    }
    CutStep(b, maxSize, at);
    assert fragments + [] == fragments;
  }

  method FragmentBundle(b: Bundle, maxSize: nat) returns (o: FragmentOutcome)
    requires !Fragment(b, maxSize).FragmentPanics?
    ensures o == Fragment(b, maxSize)
  {
    hide EncodeBundle, Cut, BundleFits, FirstMinimum, Minimum;
    if b.primary.flags.mustNotFragment {
      return Refused(MustNotFragment);
    }
    if b.primary.flags.fragment && (b.primary.fragmentOffset.None? || b.primary.totalDataLength.None?) {
      return Refused(BundleInvalid);
    }
    var first, later := MeasureBlocks(b);
    if first > maxSize || later > maxSize {
      return Refused(CanNotFragmentThatSmall(first));
    }
    var fragments := CutPayload(b, maxSize, first, later);
    o := Fragments(fragments, first, later);
  }
}
