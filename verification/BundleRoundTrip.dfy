/** Decoding an encoded bundle gives the bundle back exactly if it is well-formed. */
module BundleRoundTrip {
  import opened Bytes
  import opened Cbor
  import opened Bundle

  // ----- parts

  lemma TwoRoundTrip(s: bytes, i: nat, x: u64, y: u64)
    requires At(s, i, Uint(x) + Uint(y))
    ensures ReadTwo(s, i) == Parsed((x, y), i + HeadSize(x) + HeadSize(y))
  {
    hide Uint, ReadUint, At, HeadSize;
    AtSplit(s, i, Uint(x), Uint(y));
    UintRoundTrip(s, i, x);
    UintRoundTrip(s, i + HeadSize(x), y);
  }

  lemma UriRoundTrip(s: bytes, i: nat, uri: bytes)
    requires EndpointFits(Endpoint(uri)) && At(s, i, if uri == NONE then Uint(0) else Text(uri))
    ensures ReadUri(s, i) == Parsed(uri, i + if uri == NONE then 1 else |Text(uri)|)
  {
    hide Head, ReadHead, Utf8Valid;
    if uri == NONE {
      HeadRoundTrip(s, i, UINT, 0);
    } else {
      AtSplit(s, i, Head(TEXT, |uri|), uri);
      HeadRoundTrip(s, i, TEXT, |uri|);
    }
  }

  lemma EndpointRoundTrip(s: bytes, i: nat, e: Endpoint)
    requires EndpointFits(e) && At(s, i, EncodeEndpoint(e))
    ensures ReadEndpoint(s, i) == Parsed(e, i + |EncodeEndpoint(e)|)
  {
    hide Uint, ReadUint, ArrayHead, ReadArray, ReadUri, Text, At, Utf8Valid;
    var uri := if e.uri == NONE then Uint(0) else Text(e.uri);
    AtSplit(s, i, ArrayHead(2), Uint(1) + uri);
    AtSplit(s, i + 1, Uint(1), uri);
    ArrayRoundTrip(s, i, 2);
    UintRoundTrip(s, i + 1, 1);
    UriRoundTrip(s, i + 2, e.uri);
  }

  lemma TimestampRoundTrip(s: bytes, i: nat, p: PrimaryBlock)
    requires At(s, i, EncodeTimestamp(p))
    ensures ReadTimestamp(s, i) == Parsed((p.creationTime, p.sequenceNumber), i + |EncodeTimestamp(p)|)
  {
    hide Uint, ArrayHead, ReadArray, ReadTwo, At;
    AtSplit(s, i, ArrayHead(2), Uint(p.creationTime) + Uint(p.sequenceNumber));
    ArrayRoundTrip(s, i, 2);
    TwoRoundTrip(s, i + 1, p.creationTime, p.sequenceNumber);
  }

  lemma EndpointsRoundTrip(s: bytes, i: nat, p: PrimaryBlock)
    requires PrimaryFits(p) && At(s, i, EncodeEndpoints(p))
    ensures ReadEndpoints(s, i) == Parsed((p.destination, p.source, p.reportTo), i + |EncodeEndpoints(p)|)
  {
    hide EncodeEndpoint, ReadEndpoint, At, EndpointFits, CrcFits;
    var d, o, r := EncodeEndpoint(p.destination), EncodeEndpoint(p.source), EncodeEndpoint(p.reportTo);
    AtSplit(s, i, d, o + r);
    AtSplit(s, i + |d|, o, r);
    EndpointRoundTrip(s, i, p.destination);
    EndpointRoundTrip(s, i + |d|, p.source);
    EndpointRoundTrip(s, i + |d| + |o|, p.reportTo);
  }

  /** The type of a checksum survives, its value is read later. */
  function Blank(crc: Crc): Crc {
    match crc
    case NoCrc => NoCrc
    case Crc16(_) => Crc16([0, 0])
    case Crc32(_) => Crc32([0, 0, 0, 0])
  }

  lemma CrcTypeRoundTrip(s: bytes, i: nat, crc: Crc)
    requires At(s, i, Uint(CrcCode(crc)))
    ensures ReadCrcType(s, i) == Parsed(Blank(crc), i + 1)
  {
    hide Uint, ReadUint, At;
    UintRoundTrip(s, i, CrcCode(crc));
  }

  /** A checksum is written as an array and expected as a byte string, so it cannot be read back. */
  lemma CrcReads(s: bytes, i: nat, crc: Crc)
    requires CrcFits(crc) && At(s, i, EncodeCrc(crc))
    ensures ReadCrc(s, i, Blank(crc), crc != NoCrc) == if crc == NoCrc then Parsed(NoCrc, i) else Malformed
  {
    hide Uint, ReadHead, Head, At, Utf8Valid;
    AtWithin(s, i, EncodeCrc(crc));
    if crc.Crc16? {
      AtSplit(s, i, ArrayHead(2), Uint(crc.value[0]) + Uint(crc.value[1]));
      HeadRoundTrip(s, i, ARRAY, 2);
    } else if crc.Crc32? {
      var x := crc.value;
      AtSplit(s, i, ArrayHead(4), Uint(x[0]) + (Uint(x[1]) + (Uint(x[2]) + Uint(x[3]))));
      HeadRoundTrip(s, i, ARRAY, 4);
    }
  }

  lemma AtWithin(s: bytes, i: nat, e: bytes)
    requires At(s, i, e)
    ensures i + |e| <= |s|
  {
  }

  lemma IntroRoundTrip(s: bytes, i: nat, p: PrimaryBlock)
    requires At(s, i, EncodeIntro(p))
    ensures ReadIntro(s, i) == Parsed(Intro(p.version, p.flags, Blank(p.crc)), i + |EncodeIntro(p)|)
  {
    hide Uint, ReadTwo, ReadCrcType, At, BundleFlagsValue, BundleFlagsOf, HeadSize;
    var v, f, c := Uint(p.version), Uint(BundleFlagsValue(p.flags)), Uint(CrcCode(p.crc));
    Assoc(v, f, c);
    AtSplit(s, i, v + f, c);
    TwoRoundTrip(s, i, p.version, BundleFlagsValue(p.flags));
    CrcTypeRoundTrip(s, i + |v| + |f|, p.crc);
    OneByte(CrcCode(p.crc));
    BundleFlagsRoundTrip(p.flags);
  }

  lemma OneByte(v: u64)
    requires v < 24
    ensures HeadSize(v) == 1
  {
  }

  lemma FragmentInfoRoundTrip(s: bytes, i: nat, p: PrimaryBlock)
    requires PrimaryFits(p) && At(s, i, EncodeFragmentInfo(p))
    ensures ReadFragmentInfo(s, i, p.fragmentOffset.Some?)
            == Parsed((p.fragmentOffset, if p.fragmentOffset.Some? then p.totalDataLength else None),
                      i + |EncodeFragmentInfo(p)|)
  {
    hide Uint, ReadTwo, At, EndpointFits, CrcFits, HeadSize;
    if p.fragmentOffset.Some? {
      TwoRoundTrip(s, i, p.fragmentOffset.value, p.totalDataLength.value);
    }
  }

  // ----- the primary block

  /** What comes back of a primary block without checksum: a total length alone is not written. */
  function Kept(p: PrimaryBlock): PrimaryBlock {
    if p.fragmentOffset.Some? then p else p.(totalDataLength := None)
  }

  lemma PrimaryReads(s: bytes, i: nat, p: PrimaryBlock)
    requires PrimaryFits(p) && At(s, i, EncodePrimary(p))
    ensures ReadPrimary(s, i) == if p.crc == NoCrc then Parsed(Kept(p), i + |EncodePrimary(p)|) else Malformed
  {
    hide Uint, ArrayHead, EncodeIntro, EncodeEndpoints, EncodeTimestamp, EncodeFragmentInfo, EncodeCrc, At;
    hide ReadUint, ReadArray, ReadIntro, ReadEndpoints, ReadTimestamp, ReadFragmentInfo, ReadCrc, EndpointFits, HeadSize;
    var i1 := i + 1;
    var a, b, c, d := EncodeIntro(p), EncodeEndpoints(p), EncodeTimestamp(p), Uint(p.lifetime);
    var e, f := EncodeFragmentInfo(p), EncodeCrc(p.crc);
    OneByte(FieldCount(p));
    AtSplit(s, i, ArrayHead(FieldCount(p)), a + (b + (c + (d + (e + f)))));
    AtSplit(s, i1, a, b + (c + (d + (e + f))));
    AtSplit(s, i1 + |a|, b, c + (d + (e + f)));
    AtSplit(s, i1 + |a| + |b|, c, d + (e + f));
    AtSplit(s, i1 + |a| + |b| + |c|, d, e + f);
    AtSplit(s, i1 + |a| + |b| + |c| + |d|, e, f);
    ArrayRoundTrip(s, i, FieldCount(p));
    IntroRoundTrip(s, i1, p);
    EndpointsRoundTrip(s, i1 + |a|, p);
    TimestampRoundTrip(s, i1 + |a| + |b|, p);
    UintRoundTrip(s, i1 + |a| + |b| + |c|, p.lifetime);
    FragmentInfoRoundTrip(s, i1 + |a| + |b| + |c| + |d|, p);
    CrcReads(s, i1 + |a| + |b| + |c| + |d| + |e|, p.crc);
    NoCrcIsNothing(p.crc);
  }

  lemma NoCrcIsNothing(crc: Crc)
    requires CrcFits(crc)
    ensures crc == NoCrc ==> EncodeCrc(crc) == []
  {
  }

  // ----- canonical blocks

  predicate ReservedType(t: u64) {
    t == 1 || t == 6 || t == 7 || t == 10
  }

  lemma ContentReads(b: Block)
    requires BlockFits(b)
    ensures var r := ReadContent(BlockTypeCode(b), BlockContent(b));
            if b.Unknown? && ReservedType(b.blockType) then r.IsFailure() || r.value != b else r.Parsed? && r.value == b
  {
    hide ReadEndpoint, EncodeEndpoint, ReadUint, Uint, ReadTwo, ReadArray, ArrayHead, Utf8Valid;
    var s := BlockContent(b);
    assert At(s, 0, s);
    match b {
      case PreviousNode(node) => EndpointRoundTrip(s, 0, node);
      case BundleAge(age) => UintRoundTrip(s, 0, age);
      case HopCount(limit, count) =>
        AtSplit(s, 0, ArrayHead(2), Uint(limit) + Uint(count));
        ArrayRoundTrip(s, 0, 2);
        TwoRoundTrip(s, 1, limit, count);
      case _ =>
    }
  }

  lemma BlockIntroRoundTrip(s: bytes, i: nat, b: CanonicalBlock)
    requires At(s, i, EncodeBlockIntro(b))
    ensures ReadBlockIntro(s, i)
            == Parsed(BlockIntro(BlockTypeCode(b.block), b.number, b.flags, Blank(b.crc)), i + |EncodeBlockIntro(b)|)
  {
    hide Uint, ReadTwo, ReadUint, ReadCrcType, At, BlockFlagsValue, BlockFlagsOf, HeadSize;
    var t, n, f, c := Uint(BlockTypeCode(b.block)), Uint(b.number), Uint(BlockFlagsValue(b.flags)), Uint(CrcCode(b.crc));
    Assoc(t, n, f + c);
    AtSplit(s, i, t + n, f + c);
    AtSplit(s, i + |t| + |n|, f, c);
    TwoRoundTrip(s, i, BlockTypeCode(b.block), b.number);
    UintRoundTrip(s, i + |t| + |n|, BlockFlagsValue(b.flags));
    CrcTypeRoundTrip(s, i + |t| + |n| + |f|, b.crc);
    OneByte(CrcCode(b.crc));
    BlockFlagsRoundTrip(b.flags);
  }

  /** A block that comes back as itself. */
  predicate PlainBlock(b: CanonicalBlock) {
    b.crc == NoCrc && (b.block.Unknown? ==> !ReservedType(b.block.blockType))
  }

  lemma BlockReads(s: bytes, i: nat, b: CanonicalBlock)
    requires CanonicalFits(b) && At(s, i, EncodeBlock(b))
    ensures var r := ReadBlock(s, i);
            if PlainBlock(b) then r == Parsed(b, i + |EncodeBlock(b)|) else r.IsFailure() || r.value != b
  {
    hide ArrayHead, EncodeBlockIntro, ByteString, BlockContent, EncodeCrc, At, HeadSize, ReservedType;
    hide ReadArray, ReadBlockIntro, ReadBytes, ReadContent, ReadCrc, BlockFits, CrcFits;
    var a, c, d := EncodeBlockIntro(b), ByteString(BlockContent(b.block)), EncodeCrc(b.crc);
    var n: u64 := if b.crc == NoCrc then 5 else 6;
    OneByte(n);
    AtSplit(s, i, ArrayHead(n), a + (c + d));
    AtSplit(s, i + 1, a, c + d);
    AtSplit(s, i + 1 + |a|, c, d);
    ArrayRoundTrip(s, i, n);
    BlockIntroRoundTrip(s, i + 1, b);
    BytesRoundTrip(s, i + 1 + |a|, BlockContent(b.block));
    ContentReads(b.block);
    CrcReads(s, i + 1 + |a| + |c|, b.crc);
    NoCrcIsNothing(b.crc);
  }

  lemma BlockStart(b: CanonicalBlock)
    requires CanonicalFits(b)
    ensures |EncodeBlock(b)| > 0 && EncodeBlock(b)[0] != 0xFF
  {
    hide EncodeBlockIntro, ByteString, BlockContent, EncodeCrc;
  }

  lemma {:induction false} BlocksRead(s: bytes, i: nat, bs: seq<CanonicalBlock>)
    requires BlocksFit(bs) && At(s, i, EncodeBlocks(bs) + [0xFF])
    ensures var r := ReadBlocks(s, i, None);
            if forall k :: 0 <= k < |bs| ==> PlainBlock(bs[k])
            then r == Parsed(bs, i + |EncodeBlocks(bs)| + 1) else r.IsFailure() || r.value != bs
    decreases |bs|
  {
    hide EncodeBlock, ReadBlock, At, PlainBlock, CanonicalFits;
    if bs == [] {
      assert EncodeBlocks(bs) + [0xFF] == [0xFF];
      AtByte(s, i, [0xFF], 0);
      AtWithin(s, i, [0xFF]);
    } else {
      var e, tail := EncodeBlock(bs[0]), EncodeBlocks(bs[1..]);
      assert BlocksFit(bs[1..]);
      Assoc(e, tail, [0xFF]);
      AtSplit(s, i, e, tail + [0xFF]);
      AtWithin(s, i, e);
      BlockStart(bs[0]);
      AtByte(s, i, e, 0);
      BlockReads(s, i, bs[0]);
      if PlainBlock(bs[0]) {
        BlocksRead(s, i + |e|, bs[1..]);
        AllPlain(bs);
        assert bs == [bs[0]] + bs[1..];
      }
    }
  }

  lemma AllPlain(bs: seq<CanonicalBlock>)
    requires bs != []
    ensures (forall k :: 0 <= k < |bs| ==> PlainBlock(bs[k])) <==>
            PlainBlock(bs[0]) && forall k :: 0 <= k < |bs[1..]| ==> PlainBlock(bs[1..][k])
  {
    hide PlainBlock;
    if PlainBlock(bs[0]) && forall k :: 0 <= k < |bs[1..]| ==> PlainBlock(bs[1..][k]) {
      forall k | 0 <= k < |bs|
        ensures PlainBlock(bs[k])
      {
        if k > 0 {
          assert bs[k] == bs[1..][k - 1];
        }
      }
    }
  }

  // ----- whole bundles

  /** No checksums, at least one block, unknown blocks with unknown types, and an offset exactly if a total length. */
  predicate WellFormed(b: Bundle) {
    && b.primary.crc == NoCrc
    && (b.primary.fragmentOffset.Some? <==> b.primary.totalDataLength.Some?)
    && b.blocks != []
    && forall k :: 0 <= k < |b.blocks| ==> PlainBlock(b.blocks[k])
  }

  /** Decoding the encoding of a bundle gives that bundle back if and only if it is well-formed. */
  lemma BundleRoundTripIff(b: Bundle)
    requires BundleFits(b)
    ensures DecodeBundle(EncodeBundle(b)) == Parsed(b, |EncodeBundle(b)|) <==> WellFormed(b)
  {
    hide EncodePrimary, EncodeBlocks, ReadPrimary, ReadBlocks, At, PlainBlock, EndpointFits, CrcFits, CanonicalFits;
    var s := EncodeBundle(b);
    var p, bs := EncodePrimary(b.primary), EncodeBlocks(b.blocks);
    WholeAt(s);
    AtSplit(s, 0, [0x9F], p + (bs + [0xFF]));
    AtSplit(s, 1, p, bs + [0xFF]);
    AtByte(s, 0, [0x9F], 0);
    assert ReadHead(s, 0) == Indefinite(ARRAY, 1);
    PrimaryReads(s, 1, b.primary);
    BlocksRead(s, 1 + |p|, b.blocks);
  }

  lemma WholeAt(s: bytes)
    ensures At(s, 0, s)
  {
  }

  /** A checksum never survives: every bundle with one anywhere is refused or changed by its own round trip. */
  lemma ChecksumIsLost(b: Bundle)
    requires BundleFits(b)
    requires b.primary.crc != NoCrc || exists k :: 0 <= k < |b.blocks| && b.blocks[k].crc != NoCrc
    ensures DecodeBundle(EncodeBundle(b)) != Parsed(b, |EncodeBundle(b)|)
  {
    hide DecodeBundle, EncodeBundle;
    BundleRoundTripIff(b);
  }
}
