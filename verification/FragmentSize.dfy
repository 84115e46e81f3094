/** How large fragments are: the first always fits, and the exact condition for the others to fit as well. */
module FragmentSize {
  import opened Bytes
  import opened Cbor
  import opened Bundle
  import opened Fragmentation

  // ----- sizes of encodings

  lemma {:induction false} BlocksAppend(bs: seq<CanonicalBlock>, p: CanonicalBlock)
    requires BlocksFit(bs) && CanonicalFits(p)
    ensures BlocksFit(bs + [p]) && |EncodeBlocks(bs + [p])| == |EncodeBlocks(bs)| + BlockSize(p)
  {
    hide EncodeBlock, CanonicalFits;
    if bs == [] {
      assert bs + [p] == [p] && [p][1..] == [];
      assert EncodeBlocks([p]) == EncodeBlock(p) + [];
    } else {
      assert (bs + [p])[1..] == bs[1..] + [p];
      BlocksAppend(bs[1..], p);
    }
  }

  lemma {:induction false} NonPayloadSize(bs: seq<CanonicalBlock>)
    requires BlocksFit(bs)
    ensures BlocksFit(NonPayload(bs)) && |EncodeBlocks(NonPayload(bs))| == OtherSize(bs)
  {
    hide EncodeBlock, CanonicalFits;
    if bs != [] {
      NonPayloadSize(bs[1..]);
      if IsPayload(bs[0]) {
        assert NonPayload(bs) == NonPayload(bs[1..]);
      } else {
        assert NonPayload(bs) == [bs[0]] + NonPayload(bs[1..]);
        assert NonPayload(bs)[1..] == NonPayload(bs[1..]);
      }
    }
  }

  /** Exactly one block is a payload. */
  predicate OnePayload(bs: seq<CanonicalBlock>)
    ensures OnePayload(bs) ==> PayloadBlock(bs).Some?
  {
    PayloadBlock(bs).Some? && |NonPayload(bs)| == |bs| - 1
  }

  lemma {:induction false} NonPayloadLength(bs: seq<CanonicalBlock>)
    ensures |NonPayload(bs)| <= |bs|
    ensures |NonPayload(bs)| == |bs| ==> PayloadBlock(bs).None?
    ensures PayloadBlock(bs).None? ==> NonPayload(bs) == bs
  {
    if bs != [] {
      NonPayloadLength(bs[1..]);
      assert bs == [bs[0]] + bs[1..];
    }
  }

  lemma {:induction false} OnePayloadSize(bs: seq<CanonicalBlock>)
    requires BlocksFit(bs) && OnePayload(bs)
    ensures |EncodeBlocks(bs)| == OtherSize(bs) + BlockSize(PayloadBlock(bs).value)
  {
    hide EncodeBlock, CanonicalFits;
    if IsPayload(bs[0]) {
      NonPayloadLength(bs[1..]);
      NonPayloadSize(bs[1..]);
      NoPayloadLeft(bs[1..]);
    } else {
      OnePayloadSize(bs[1..]);
    }
  }

  lemma {:induction false} NoPayloadLeft(bs: seq<CanonicalBlock>)
    ensures |NonPayload(bs)| == |bs| ==> NonPayload(bs) == bs
  {
    NonPayloadLength(bs);
  }

  /** The bytes of a payload block around its data and the head of its data. */
  function Frame(p: CanonicalBlock): (n: nat)
    requires CrcFits(p.crc)
  {
    1 + |EncodeBlockIntro(p)| + |EncodeCrc(p.crc)|
  }

  lemma FrameBound(p: CanonicalBlock)
    requires CrcFits(p.crc) && IsPayload(p)
    ensures 5 <= Frame(p) <= 23
  {
    hide Uint, EncodeCrcValue, Number, BlockFlagsValue;
  }

  lemma PayloadBlockSize(p: CanonicalBlock, data: bytes)
    requires CanonicalFits(p) && IsPayload(p) && |data| < 0x1_0000_0000_0000_0000
    ensures CanonicalFits(p.(block := Payload(data)))
    ensures BlockSize(p.(block := Payload(data))) == Frame(p) + HeadSize(|data|) + |data|
  {
    hide Uint, EncodeCrc, Number, BlockFlagsValue, ByteString, ArrayHead;
    var q := p.(block := Payload(data));
    assert EncodeBlockIntro(q) == EncodeBlockIntro(p);
  }

  lemma EvenHead(v: u64)
    requires v % 2 == 0 && v + 1 < 0x1_0000_0000_0000_0000
    ensures HeadSize(v + 1) == HeadSize(v)
  {
  }

  /** Marking a bundle as a fragment does not make its flags longer. */
  lemma FragmentFlagSize(f: BundleFlags)
    ensures HeadSize(BundleFlagsValue(f.(fragment := true))) == HeadSize(BundleFlagsValue(f))
  {
    hide BundleFlagsValue;
    if f.fragment {
      assert f.(fragment := true) == f;
    } else {
      FragmentFlagValue(f);
      EvenHead(BundleFlagsValue(f));
    }
  }

  /** Encoded size of the fragment fields, if there are any. */
  function InfoSize(p: PrimaryBlock): (n: nat)
    requires PrimaryFits(p)
    ensures n <= 18
  {
    |EncodeFragmentInfo(p)|
  }

  lemma PrimarySize(p: PrimaryBlock, q: PrimaryBlock, offset: u64, total: u64)
    requires PrimaryFits(p)
    requires q == p.(flags := p.flags.(fragment := true), fragmentOffset := Some(offset), totalDataLength := Some(total))
    ensures |EncodePrimary(q)| == |EncodePrimary(p)| - InfoSize(p) + HeadSize(offset) + HeadSize(total)
  {
    hide Uint, EncodeCrc, BundleFlagsValue, EncodeEndpoint, EncodeFragmentInfo, ArrayHead, HeadSize, EndpointFits, CrcFits;
    FragmentFlagSize(p.flags);
    assert HeadSize(FieldCount(p)) == HeadSize(FieldCount(q)) by {
      SmallHeads(FieldCount(p), FieldCount(q));
    }
  }

  lemma SmallHeads(m: u64, n: u64)
    requires m < 24 && n < 24
    ensures HeadSize(m) == HeadSize(n)
  {
  }

  lemma BundleSize(b: Bundle)
    requires BundleFits(b)
    ensures |EncodeBundle(b)| == 2 + |EncodePrimary(b.primary)| + |EncodeBlocks(b.blocks)|
  {
  }

  // ----- sizes of fragments

  /** Encoded size of the blocks every later fragment carries. */
  function CopiedSize(bs: seq<CanonicalBlock>): nat
    requires BlocksFit(bs)
  {
    if bs == [] then 0
    else (if IsPayload(bs[0]) || bs[0].flags.mustReplicate then 0 else BlockSize(bs[0])) + CopiedSize(bs[1..])
  }

  lemma {:induction false} CopiedSizeIs(bs: seq<CanonicalBlock>)
    requires BlocksFit(bs)
    ensures BlocksFit(Copied(bs)) && |EncodeBlocks(Copied(bs))| == CopiedSize(bs)
  {
    hide EncodeBlock, CanonicalFits;
    if bs != [] {
      CopiedSizeIs(bs[1..]);
      if IsPayload(bs[0]) || bs[0].flags.mustReplicate {
        assert Copied(bs) == Copied(bs[1..]);
      } else {
        assert Copied(bs) == [bs[0]] + Copied(bs[1..]);
        assert Copied(bs)[1..] == Copied(bs[1..]);
      }
    }
  }

  lemma PayloadFits(b: Bundle)
    requires BundleFits(b) && HasPayload(b)
    ensures CanonicalFits(PayloadBlock(b.blocks).value) && |PayloadData(b)| < 0x1_0000_0000_0000_0000
  {
  }

  lemma PieceSize(b: Bundle, at: nat, length: nat)
    requires BundleFits(b) && HasPayload(b) && at + length <= |PayloadData(b)| < 0x1_0000_0000_0000_0000
    requires GlobalOffset(b) + at < 0x1_0000_0000_0000_0000
    requires CanonicalFits(PayloadBlock(b.blocks).value)
    ensures |EncodeBundle(Piece(b, at, length))|
            == 2 + |EncodePrimary(b.primary)| - InfoSize(b.primary) + HeadSize(GlobalOffset(b) + at)
               + HeadSize(TotalLength(b)) + (if at == 0 then OtherSize(b.blocks) else CopiedSize(b.blocks))
               + Frame(PayloadBlock(b.blocks).value) + HeadSize(length) + length
  {
    hide EncodePrimary, EncodeBlocks, OtherSize, CopiedSize, Copied, NonPayload, Frame, InfoSize, HeadSize, PayloadBlock;
    hide CanonicalFits, PrimaryFits, EncodeBlock;
    var p, data := PayloadBlock(b.blocks).value, PayloadData(b)[at..at + length];
    var f := Piece(b, at, length);
    BundleSize(f);
    PrimarySize(b.primary, f.primary, GlobalOffset(b) + at, TotalLength(b));
    PayloadBlockSize(p, data);
    if at == 0 {
      NonPayloadSize(b.blocks);
      BlocksAppend(NonPayload(b.blocks), p.(block := Payload(data)));
    } else {
      CopiedSizeIs(b.blocks);
      BlocksAppend(Copied(b.blocks), p.(block := Payload(data)));
    }
  }

  /** The payload of b lies within the payload of the bundle it belongs to. */
  predicate InRange(b: Bundle)
    requires BundleFits(b) && HasPayload(b)
  {
    GlobalOffset(b) + |PayloadData(b)| <= TotalLength(b)
  }

  /** The 128 reserved bytes cover the payload block around its data and the added fragment fields. */
  lemma FirstFits(b: Bundle, maxSize: nat)
    requires BundleFits(b) && HasPayload(b) && |PayloadData(b)| >= 1 && maxSize > FirstMinimum(b)
    ensures NextPiece(b, maxSize, 0).Some?
  {
    hide EncodeBundle, Piece, EncodePrimary, OtherSize, HeadSize, Frame, InfoSize, PayloadBlock, BundleFits;
    PayloadFits(b);
    PieceSize(b, 0, PieceLength(b, maxSize, 0));
    FrameBound(PayloadBlock(b.blocks).value);
  }

  /** A bundle that is too large has more payload than the first fragment takes. */
  lemma FirstTakesPart(b: Bundle, maxSize: nat)
    requires BundleFits(b) && OnePayload(b.blocks) && |EncodeBundle(b)| > maxSize >= FirstMinimum(b)
    ensures |PayloadData(b)| > maxSize - FirstMinimum(b)
  {
    hide EncodePrimary, EncodeBlocks, OtherSize, HeadSize, Frame, PayloadBlock, NonPayload, CanonicalFits;
    PayloadFits(b);
    BundleSize(b);
    OnePayloadSize(b.blocks);
    var p := PayloadBlock(b.blocks).value;
    PayloadBlockSize(p, p.block.data);
    assert p.(block := Payload(p.block.data)) == p;
    FrameBound(p);
  }

  /** By how much the fixed part of a later fragment exceeds what `Minimum` reserves for it. */
  function Excess(b: Bundle): int
    requires BundleFits(b) && HasPayload(b)
  {
    PayloadFits(b);
    CopiedSize(b.blocks) + Frame(PayloadBlock(b.blocks).value) + HeadSize(TotalLength(b))
    - InfoSize(b.primary) - ReplicatedSize(b.blocks) - PAYLOAD_BLOCK_SERIALIZATION_OVERHEAD
  }

  /** From payload position `from` on, n being the end and `step` the size of a full fragment: the last full fragment
      fits, and so does the shorter one that ends the payload, if there is one. */
  predicate StepsFit(excess: int, global: nat, n: nat, step: nat, from: nat)
    requires global + n < 0x1_0000_0000_0000_0000 && step > 0 && from <= n
  {
    var r := (n - from) % step;
    && (n - from >= step ==>
          (SameRest(n - from, step); excess + HeadSize(global + n - r - step) + HeadSize(step) <= 0))
    && (1 <= r <= n - from ==> excess + HeadSize(global + n - r) + HeadSize(r) + r <= step)
  }

  lemma {:induction false} StepsUnfold(excess: int, global: nat, n: nat, step: nat, from: nat)
    requires global + n < 0x1_0000_0000_0000_0000 && step > 0 && from < n
    ensures StepsFit(excess, global, n, step, from) <==>
            if n - from < step
            then excess + HeadSize(global + from) + HeadSize(n - from) + (n - from) <= step
            else excess + HeadSize(global + from) + HeadSize(step) <= 0
                 && StepsFit(excess, global, n, step, from + step)
  {
    hide HeadSize;
    if n - from < step {
      SmallRest(n - from, step);
    } else {
      SameRest(n - from, step);
      if n - from - step >= step {
        SameRest(n - from - step, step);
        HeadSizeMonotone(global + from, global + n - (n - from) % step - step);
      } else {
        SmallRest(n - from - step, step);
      }
    }
  }

  /** The later fragments fit. */
  predicate LaterFit(b: Bundle, maxSize: nat, from: nat)
    requires BundleFits(b) && HasPayload(b) && InRange(b) && maxSize > FirstMinimum(b) && from <= |PayloadData(b)|
  {
    StepsFit(Excess(b), GlobalOffset(b), |PayloadData(b)|, maxSize - Minimum(b), from)
  }

  lemma LaterPieceFits(b: Bundle, maxSize: nat, at: nat)
    requires BundleFits(b) && HasPayload(b) && InRange(b) && maxSize > FirstMinimum(b) && 0 < at < |PayloadData(b)|
    ensures var length, step := PieceLength(b, maxSize, at), maxSize - Minimum(b);
            && length == (if |PayloadData(b)| - at <= step then |PayloadData(b)| - at else step) && length >= 1
            && (NextPiece(b, maxSize, at).Some? <==>
                Excess(b) + HeadSize(GlobalOffset(b) + at) + HeadSize(length) + length <= step)
  {
    hide EncodeBundle, Piece, EncodePrimary, OtherSize, ReplicatedSize, CopiedSize, HeadSize, Frame, InfoSize;
    hide PayloadBlock, BundleFits;
    PayloadFits(b);
    PieceSize(b, at, PieceLength(b, maxSize, at));
  }

  lemma SameRest(n: nat, step: nat)
    requires n >= step > 0
    ensures (n - step) % step == n % step && n % step <= n - step
  {
    var d := (n - step) / step;
    assert n - step == step * d + (n - step) % step;
    assert n == step * (d + 1) + (n - step) % step;
    RemainderIs(n, step, d + 1, (n - step) % step);
    assert step * d >= 0;
  }

  lemma RemainderIs(n: nat, step: nat, q: nat, r: nat)
    requires step > 0 && r < step && n == step * q + r
    ensures n % step == r
  {
    var d := n / step;
    assert n == step * d + n % step;
    assert step * (d - q) == r - n % step;
    MultipleGrows(step, d - q);
  }

  lemma MultipleGrows(step: int, k: int)
    requires step > 0
    ensures k >= 1 ==> step * k >= step
    ensures k <= -1 ==> step * k <= -step
  {
  }

  lemma SmallRest(n: nat, step: nat)
    requires n < step
    ensures n % step == n
  {
  }

  /** Cutting goes through exactly if the later fragments fit. */
  lemma {:induction false} LaterCut(b: Bundle, maxSize: nat, at: nat)
    requires BundleFits(b) && HasPayload(b) && InRange(b) && maxSize > FirstMinimum(b) && 0 < at <= |PayloadData(b)|
    ensures Cut(b, maxSize, at).Some? <==> LaterFit(b, maxSize, at)
    decreases |PayloadData(b)| - at
  {
    hide NextPiece, PieceLength, PayloadBlock, BundleFits, Excess, HeadSize, FirstMinimum, Minimum, StepsFit, Cut;
    var n, step, g := |PayloadData(b)|, maxSize - Minimum(b), GlobalOffset(b);
    CutStep(b, maxSize, at);
    if at == n {
      NoSteps(Excess(b), g, n, step);
    } else {
      LaterPieceFits(b, maxSize, at);
      StepsUnfold(Excess(b), g, n, step, at);
      CutUnfolds(b, maxSize, at);
      LaterCut(b, maxSize, at + PieceLength(b, maxSize, at));
      if n - at <= step {
        NoSteps(Excess(b), g, n, step);
      }
    }
  }

  lemma NoSteps(excess: int, global: nat, n: nat, step: nat)
    requires global + n < 0x1_0000_0000_0000_0000 && step > 0
    ensures StepsFit(excess, global, n, step, n)
  {
  }

  lemma CutUnfolds(b: Bundle, maxSize: nat, at: nat)
    requires BundleFits(b) && HasPayload(b) && at < |PayloadData(b)|
    ensures Cut(b, maxSize, at).Some? <==>
            NextPiece(b, maxSize, at).Some? && Cut(b, maxSize, at + PieceLength(b, maxSize, at)).Some?
  {
    hide NextPiece, PieceLength, PayloadBlock, BundleFits;
  }

  // ----- what the fragments are

  lemma {:induction false} PayloadLast(bs: seq<CanonicalBlock>, p: CanonicalBlock)
    requires IsPayload(p) && forall k :: 0 <= k < |bs| ==> !IsPayload(bs[k])
    ensures PayloadBlock(bs + [p]) == Some(p) && NonPayload(bs + [p]) == bs && OnePayload(bs + [p])
  {
    if bs == [] {
      assert bs + [p] == [p];
    } else {
      assert (bs + [p])[1..] == bs[1..] + [p] && bs == [bs[0]] + bs[1..];
      PayloadLast(bs[1..], p);
    }
  }

  /** The payload of a fragment is its slice, and comes last. */
  lemma PiecePayload(b: Bundle, at: nat, length: nat)
    requires BundleFits(b) && HasPayload(b) && at + length <= |PayloadData(b)|
    requires GlobalOffset(b) + at < 0x1_0000_0000_0000_0000
    ensures var f := Piece(b, at, length);
            && OnePayload(f.blocks) && PayloadData(f) == PayloadData(b)[at..at + length]
            && PayloadBlock(f.blocks).value == PayloadBlock(b.blocks).value.(block := Payload(PayloadData(f)))
            && f.blocks == NonPayload(f.blocks) + [PayloadBlock(f.blocks).value]
            && NonPayload(f.blocks) == if at == 0 then NonPayload(b.blocks) else Copied(b.blocks)
  {
    hide BundleFits;
    var p := PayloadBlock(b.blocks).value.(block := Payload(PayloadData(b)[at..at + length]));
    PayloadLast(if at == 0 then NonPayload(b.blocks) else Copied(b.blocks), p);
  }

  /** The list cuts the payload of b from position `at` on into consecutive, non-empty fragments of at most maxSize. */
  ghost predicate Tiles(b: Bundle, maxSize: nat, fs: seq<Bundle>, at: nat)
    requires BundleFits(b) && HasPayload(b)
    decreases |fs|
  {
    if fs == [] then at == |PayloadData(b)|
    else
      && BundleFits(fs[0]) && HasPayload(fs[0])
      && var length := |PayloadData(fs[0])|;
         && length >= 1 && at + length <= |PayloadData(b)| && GlobalOffset(b) + at < 0x1_0000_0000_0000_0000
         && fs[0] == Piece(b, at, length) && |EncodeBundle(fs[0])| <= maxSize
         && Tiles(b, maxSize, fs[1..], at + length)
  }

  lemma {:induction false} CutTiles(b: Bundle, maxSize: nat, at: nat)
    requires BundleFits(b) && HasPayload(b) && at <= |PayloadData(b)| && Cut(b, maxSize, at).Some?
    ensures Tiles(b, maxSize, Cut(b, maxSize, at).value, at)
    decreases |PayloadData(b)| - at
  {
    hide Cut, Piece, PieceLength, PayloadBlock, BundleFits, EncodeBundle, NextPiece, NonPayload, Copied, OnePayload;
    CutStep(b, maxSize, at);
    if at < |PayloadData(b)| {
      var n := PieceLength(b, maxSize, at);
      NextPieceSmall(b, maxSize, at);
      CutTiles(b, maxSize, at + n);
      var fs := Cut(b, maxSize, at).value;
      assert fs[0] == Piece(b, at, n) && fs[1..] == Cut(b, maxSize, at + n).value;
    }
  }

  lemma NextPieceSmall(b: Bundle, maxSize: nat, at: nat)
    requires BundleFits(b) && HasPayload(b) && at < |PayloadData(b)| && NextPiece(b, maxSize, at).Some?
    ensures GlobalOffset(b) + at < 0x1_0000_0000_0000_0000
    ensures var f, n := NextPiece(b, maxSize, at).value, PieceLength(b, maxSize, at);
            && BundleFits(f) && |EncodeBundle(f)| <= maxSize && HasPayload(f) && |PayloadData(f)| == n
            && f == Piece(b, at, n)
  {
    hide Piece, PieceLength, PayloadBlock, EncodeBundle, BundleFits, NonPayload, Copied;
    PiecePayload(b, at, PieceLength(b, maxSize, at));
  }

  lemma {:induction false} TilesAre(b: Bundle, maxSize: nat, fs: seq<Bundle>, at: nat, k: nat)
    requires BundleFits(b) && HasPayload(b) && Tiles(b, maxSize, fs, at) && k < |fs|
    ensures BundleFits(fs[k]) && HasPayload(fs[k]) && |EncodeBundle(fs[k])| <= maxSize && |PayloadData(fs[k])| >= 1
    decreases k
  {
    hide Piece, PayloadBlock, BundleFits, EncodeBundle;
    if k > 0 {
      TilesAre(b, maxSize, fs[1..], at + |PayloadData(fs[0])|, k - 1);
    }
  }

  // ----- the main results

  /** A bundle that `fragment` does not refuse for its flags: it has one payload, which lies within the total. */
  predicate Fragmentable(b: Bundle) {
    && BundleFits(b) && OnePayload(b.blocks) && InRange(b) && !b.primary.flags.mustNotFragment
    && (b.primary.flags.fragment ==> b.primary.fragmentOffset.Some? && b.primary.totalDataLength.Some?)
  }

  /** For a bundle over the limit, and a limit over the minimum: the first fragment always fits; all fragments fit,
      and `fragment` succeeds, exactly under `LaterFit`, which a caller can evaluate; there are then at least two
      fragments, none empty, none over the limit, that cut the payload into consecutive slices. */
  lemma FragmentSizeBound(b: Bundle, maxSize: nat)
    requires Fragmentable(b) && |EncodeBundle(b)| > maxSize > FirstMinimum(b)
    ensures |PayloadData(b)| > maxSize - FirstMinimum(b) && NextPiece(b, maxSize, 0).Some?
    ensures Fragment(b, maxSize).Fragments? <==> LaterFit(b, maxSize, maxSize - FirstMinimum(b))
    ensures Fragment(b, maxSize).FragmentPanics? <==> !LaterFit(b, maxSize, maxSize - FirstMinimum(b))
    ensures Fragment(b, maxSize).Fragments? ==>
              var fs := Fragment(b, maxSize).fragments;
              && |fs| >= 2 && Tiles(b, maxSize, fs, 0)
              && forall k :: 0 <= k < |fs| ==>
                   BundleFits(fs[k]) && HasPayload(fs[k]) && |EncodeBundle(fs[k])| <= maxSize && |PayloadData(fs[k])| >= 1
  {
    hide EncodeBundle, BundleFits, FirstMinimum, Minimum, LaterFit, Cut, NextPiece, PayloadBlock, NonPayload, Tiles;
    FirstTakesPart(b, maxSize);
    FirstFits(b, maxSize);
    FirstLength(b, maxSize);
    CutUnfolds(b, maxSize, 0);
    LaterCut(b, maxSize, maxSize - FirstMinimum(b));
    if Cut(b, maxSize, 0).Some? {
      var fs := Cut(b, maxSize, 0).value;
      CutTiles(b, maxSize, 0);
      CutStep(b, maxSize, 0);
      CutStep(b, maxSize, maxSize - FirstMinimum(b));
      forall k | 0 <= k < |fs|
        ensures BundleFits(fs[k]) && HasPayload(fs[k]) && |EncodeBundle(fs[k])| <= maxSize && |PayloadData(fs[k])| >= 1
      {
        TilesAre(b, maxSize, fs, 0, k);
      }
    }
  }

  lemma FirstLength(b: Bundle, maxSize: nat)
    requires BundleFits(b) && HasPayload(b) && |PayloadData(b)| > maxSize - FirstMinimum(b)
    ensures PieceLength(b, maxSize, 0) == maxSize - FirstMinimum(b)
  {
  }

  /** A limit of exactly the minimum size is not refused, but leaves no room for payload: a panic. */
  lemma MinimumPanics(b: Bundle)
    requires Fragmentable(b) && |EncodeBundle(b)| > FirstMinimum(b)
    ensures Fragment(b, FirstMinimum(b)).FragmentPanics?
  {
    hide EncodeBundle, BundleFits, FirstMinimum, Minimum, PayloadBlock, NonPayload;
    FirstTakesPart(b, FirstMinimum(b));
    FirstLength(b, FirstMinimum(b));
  }

  /** The reserve leaves 78 bytes: enough if the copied blocks exceed the replicated ones by no more. */
  lemma SlackSuffices(b: Bundle, maxSize: nat)
    requires Fragmentable(b) && maxSize > FirstMinimum(b) && maxSize - FirstMinimum(b) <= |PayloadData(b)|
    requires CopiedSize(b.blocks) <= ReplicatedSize(b.blocks) + 78
    ensures LaterFit(b, maxSize, maxSize - FirstMinimum(b))
  {
    hide BundleFits, FirstMinimum, Minimum, PayloadBlock, NonPayload, CopiedSize, ReplicatedSize, Frame, InfoSize, HeadSize;
    PayloadFits(b);
    FrameBound(PayloadBlock(b.blocks).value);
  }

  /** The blocks section 5.8 of RFC 9171 has copied to every fragment: those with the replicate flag. */
  function Replicated(bs: seq<CanonicalBlock>): (r: seq<CanonicalBlock>)
    ensures forall k :: 0 <= k < |r| ==> r[k] in bs && !IsPayload(r[k])
  {
    if bs == [] then []
    else (if IsPayload(bs[0]) || !bs[0].flags.mustReplicate then [] else [bs[0]]) + Replicated(bs[1..])
  }

  lemma {:induction false} ReplicatedSizeIs(bs: seq<CanonicalBlock>)
    requires BlocksFit(bs)
    ensures BlocksFit(Replicated(bs)) && |EncodeBlocks(Replicated(bs))| == ReplicatedSize(bs)
  {
    hide EncodeBlock, CanonicalFits;
    if bs != [] {
      ReplicatedSizeIs(bs[1..]);
      if IsPayload(bs[0]) || !bs[0].flags.mustReplicate {
        assert Replicated(bs) == Replicated(bs[1..]);
      } else {
        assert Replicated(bs) == [bs[0]] + Replicated(bs[1..]);
        assert Replicated(bs)[1..] == Replicated(bs[1..]);
      }
    }
  }

  /** The later fragment at `at`, had the replicated blocks been copied. */
  function IntendedPiece(b: Bundle, at: nat, length: nat): Bundle
    requires BundleFits(b) && HasPayload(b) && at + length <= |PayloadData(b)|
    requires GlobalOffset(b) + at < 0x1_0000_0000_0000_0000
  {
    Piece(b, at, length).(blocks := Replicated(b.blocks)
                                    + [PayloadBlock(b.blocks).value.(block := Payload(PayloadData(b)[at..at + length]))])
  }

  /** With the blocks chosen by the replicate flag every later fragment, of up to the length the loop takes, would fit,
      whatever the bundle. */
  lemma IntendedSelectionFits(b: Bundle, maxSize: nat, at: nat, n: nat)
    requires BundleFits(b) && HasPayload(b) && at + n <= |PayloadData(b)| && Minimum(b) + n <= maxSize
    requires GlobalOffset(b) + at < 0x1_0000_0000_0000_0000
    ensures BundleFits(IntendedPiece(b, at, n)) && |EncodeBundle(IntendedPiece(b, at, n))| <= maxSize
  {
    hide EncodePrimary, EncodeBlocks, OtherSize, ReplicatedSize, Replicated, Copied, NonPayload, Frame, InfoSize, HeadSize;
    hide PayloadBlock, CanonicalFits, EncodeBlock, EncodeBundle, EndpointFits, CrcFits;
    var p, data, f := PayloadBlock(b.blocks).value, PayloadData(b)[at..at + n], IntendedPiece(b, at, n);
    PayloadFits(b);
    ReplicatedSizeIs(b.blocks);
    PayloadBlockSize(p, data);
    BlocksAppend(Replicated(b.blocks), p.(block := Payload(data)));
    BundleSize(f);
    PrimarySize(b.primary, f.primary, GlobalOffset(b) + at, TotalLength(b));
    FrameBound(p);
  }

  // ----- a bundle whose later fragments do not fit

  /** A block of 200 bytes without the replicate flag, and a payload of 10000 bytes. */
  function WithLargeBlock(): Bundle {
    var none := Endpoint(NONE);
    var flags := BundleFlags(false, false, false, false, false, false, false, false, false);
    Bundle(PrimaryBlock(7, flags, NoCrc, none, none, none, 0, 0, 0, None, None),
           [CanonicalBlock(Unknown(200, Zeros(200)), 2, NO_BLOCK_FLAGS, NoCrc),
            CanonicalBlock(Payload(Zeros(10000)), 1, NO_BLOCK_FLAGS, NoCrc)])
  }

  lemma UnknownBlockSize(b: CanonicalBlock)
    requires CanonicalFits(b) && b.block.Unknown?
    ensures |b.block.data| <= BlockSize(b) <= |b.block.data| + 50
  {
    hide Uint, EncodeCrc, Number, BlockFlagsValue, ByteString, ArrayHead;
  }

  lemma TwoBlocks(x: CanonicalBlock, p: CanonicalBlock)
    requires CanonicalFits(x) && CanonicalFits(p) && !IsPayload(x) && !x.flags.mustReplicate && IsPayload(p)
    ensures var bs := [x, p];
            && BlocksFit(bs) && OnePayload(bs) && PayloadBlock(bs) == Some(p)
            && OtherSize(bs) == BlockSize(x) && CopiedSize(bs) == BlockSize(x) && ReplicatedSize(bs) == 0
  {
    hide EncodeBlock, CanonicalFits;
    var bs := [x, p];
    var one, none := [p], bs[2..];
    assert bs[1..] == one && one[1..] == none == [] && bs[0] == x && one[0] == p;
    assert BlocksFit(one) && BlocksFit(none);
    assert NonPayload(none) == [] && NonPayload(one) == [] && NonPayload(bs) == [x];
    assert OtherSize(one) == 0 && CopiedSize(one) == 0 && ReplicatedSize(one) == 0;
    assert PayloadBlock(bs) == PayloadBlock(one) == Some(p);
  }

  lemma LargeBlockParts(b: Bundle)
    requires b == WithLargeBlock()
    ensures BundleFits(b) && BlocksFit(b.blocks) && OnePayload(b.blocks)
    ensures PayloadBlock(b.blocks) == Some(b.blocks[1])
    ensures var n := BlockSize(b.blocks[0]);
            OtherSize(b.blocks) == n && CopiedSize(b.blocks) == n && ReplicatedSize(b.blocks) == 0
  {
    hide EncodeBlock, NonPayload, PayloadBlock, OtherSize, CopiedSize, ReplicatedSize, OnePayload, EndpointFits;
    NoneFits();
    TwoBlocks(b.blocks[0], b.blocks[1]);
    assert b.blocks == [b.blocks[0], b.blocks[1]];
  }

  lemma NoneFits()
    ensures EndpointFits(Endpoint(NONE))
  {
    assert NONE[1..][1..][1..][1..] == [];
    assert Utf8Valid(NONE[1..][1..][1..]);
    assert Utf8Valid(NONE[1..][1..]);
    assert Utf8Valid(NONE[1..]);
  }

  /** The blocks copied to later fragments are not the ones accounted for, so a fragment can come out too large. */
  lemma LaterFragmentTooLarge()
    ensures Fragmentable(WithLargeBlock())
    ensures var b := WithLargeBlock(); var maxSize := FirstMinimum(b) + 100;
            |EncodeBundle(b)| > maxSize && Fragment(b, maxSize).FragmentPanics?
  {
    hide EncodeBundle, EncodeBlock, EncodePrimary, EncodeBlocks, BundleFits, NonPayload, OtherSize, CopiedSize;
    hide ReplicatedSize, Frame, BlockSize, CanonicalFits, Cut, Number, Utf8Valid;
    var b := WithLargeBlock();
    LargeBlockParts(b);
    var maxSize := FirstMinimum(b) + 100;
    PayloadFits(b);
    var p := b.blocks[1];
    BundleSize(b);
    OnePayloadSize(b.blocks);
    PayloadBlockSize(p, p.block.data);
    assert p.(block := Payload(p.block.data)) == p;
    FrameBound(p);
    LargeBlockFits(b);
    UnknownBlockSize(b.blocks[0]);
    FragmentSizeBound(b, maxSize);
    LargeExcess(b, maxSize);
  }

  lemma LargeBlockFits(b: Bundle)
    requires BundleFits(b) && b.blocks != []
    ensures CanonicalFits(b.blocks[0])
  {
  }

  lemma LargeExcess(b: Bundle, maxSize: nat)
    requires BundleFits(b) && HasPayload(b) && InRange(b) && maxSize > FirstMinimum(b)
    requires maxSize - FirstMinimum(b) <= |PayloadData(b)|
    requires Excess(b) > 0 && |PayloadData(b)| - (maxSize - FirstMinimum(b)) >= maxSize - Minimum(b)
    ensures !LaterFit(b, maxSize, maxSize - FirstMinimum(b))
  {
    hide BundleFits, PayloadBlock, Excess, FirstMinimum, Minimum, HeadSize;
  }

  /** The size in a refusal is the least that is not refused for being too small: below it no fragmentation succeeds,
      from it on none is refused for its size, and it is more than what was asked for. */
  lemma RefusalNamesLeastSize(b: Bundle, maxSize: nat, minimum: nat, other: nat)
    requires Fragment(b, maxSize) == Refused(CanNotFragmentThatSmall(minimum))
    ensures minimum > maxSize
    ensures other < minimum ==> !Fragment(b, other).Fragments?
    ensures other >= minimum ==> !(Fragment(b, other).Refused? && Fragment(b, other).error.CanNotFragmentThatSmall?)
  {
    hide EncodeBundle, BundleFits, Cut, FirstMinimum, Minimum;
  }

  /** The two minimum sizes in bytes: those of the bundle without its payload and, for later fragments, with only the
      blocks that have the replicate flag, and 128 more. */
  lemma MinimumSizes(b: Bundle)
    requires BundleFits(b)
    ensures var first, later := b.(blocks := NonPayload(b.blocks)), b.(blocks := Replicated(b.blocks));
            && BundleFits(first) && FirstMinimum(b) == |EncodeBundle(first)| + 128
            && BundleFits(later) && Minimum(b) == |EncodeBundle(later)| + 128
  {
    hide EncodePrimary, EncodeBlocks, OtherSize, ReplicatedSize, Replicated, NonPayload, CanonicalFits, EncodeBundle, PrimaryFits;
    NonPayloadSize(b.blocks);
    ReplicatedSizeIs(b.blocks);
    BundleSize(b.(blocks := NonPayload(b.blocks)));
    BundleSize(b.(blocks := Replicated(b.blocks)));
  }

  /** A bundle over the limit that may be fragmented is refused if and only if the limit is less than its size without
      payload and 128 bytes, and the refusal names that size. */
  lemma RefusedIff(b: Bundle, maxSize: nat)
    requires BundleFits(b) && |EncodeBundle(b)| > maxSize && !b.primary.flags.mustNotFragment
    requires b.primary.flags.fragment ==> b.primary.fragmentOffset.Some? && b.primary.totalDataLength.Some?
    ensures var bare := b.(blocks := NonPayload(b.blocks));
            && BundleFits(bare)
            && (Fragment(b, maxSize).Refused? <==> |EncodeBundle(bare)| + 128 > maxSize)
            && (Fragment(b, maxSize).Refused? ==>
                  Fragment(b, maxSize) == Refused(CanNotFragmentThatSmall(|EncodeBundle(bare)| + 128)))
  {
    hide EncodeBundle, BundleFits, Cut, FirstMinimum, Minimum, NonPayload;
    MinimumSizes(b);
  }
}
