/** A bundle and its bytes, written out. */
module SampleBundle {
  import opened Bytes
  import opened Cbor
  import opened Bundle
  import opened BundleRoundTrip
  import opened BundleLayout
  import opened WireFormat

  /** "//node31/mavlink" */
  const MAVLINK: bytes :=
    [0x2F, 0x2F, 0x6E, 0x6F, 0x64, 0x65, 0x33, 0x31, 0x2F, 0x6D, 0x61, 0x76, 0x6C, 0x69, 0x6E, 0x6B]

  /** "//node2/incoming" */
  const INCOMING: bytes :=
    [0x2F, 0x2F, 0x6E, 0x6F, 0x64, 0x65, 0x32, 0x2F, 0x69, 0x6E, 0x63, 0x6F, 0x6D, 0x69, 0x6E, 0x67]

  const PRIMARY := PrimaryBlock(
    7, BundleFlags(false, false, true, false, false, false, false, true, false), NoCrc,
    Endpoint(MAVLINK), Endpoint(INCOMING), Endpoint(INCOMING), 681_253_789_438, 0, 3_600_000, None, None)

  const HOPS := CanonicalBlock(HopCount(32, 0), 2, NO_BLOCK_FLAGS, NoCrc)

  const DATA := CanonicalBlock(Payload([67, 65, 66, 67]), 1, NO_BLOCK_FLAGS, NoCrc)

  const SAMPLE := Bundle(PRIMARY, [HOPS, DATA])

  const PRIMARY_BYTES: bytes :=
    [0x88, 0x07, 0x1A, 0x00, 0x02, 0x00, 0x04, 0x00]
    + [0x82, 0x01, 0x70] + MAVLINK + [0x82, 0x01, 0x70] + INCOMING + [0x82, 0x01, 0x70] + INCOMING
    + [0x82, 0x1B, 0x00, 0x00, 0x00, 0x9E, 0x9D, 0xE3, 0xDE, 0xFE, 0x00] + [0x1A, 0x00, 0x36, 0xEE, 0x80]

  const SAMPLE_BYTES: bytes :=
    [0x9F] + PRIMARY_BYTES
    + [0x85, 0x0A, 0x02, 0x00, 0x00, 0x44, 0x82, 0x18, 0x20, 0x00]
    + [0x85, 0x01, 0x01, 0x00, 0x00, 0x44, 0x43, 0x41, 0x42, 0x43] + [0xFF]

  // ----- building blocks

  lemma {:induction false} AsciiIsUtf8(s: bytes)
    requires forall k :: 0 <= k < |s| ==> s[k] < 0x80
    ensures Utf8Valid(s)
  {
    if s != [] {
      AsciiIsUtf8(s[1..]);
    }
  }

  lemma LastByte(high: nat, low: u8)
    ensures (0x100 * high + low) / 0x100 == high && (0x100 * high + low) % 0x100 == low
  {
  }

  lemma OneByteMore(v: nat, k: nat)
    requires k > 0 && v < Pow256(k)
    ensures v / 0x100 < Pow256(k - 1) && ToBE(v, k) == ToBE(v / 0x100, k - 1) + [v % 0x100]
  {
  }

  /** A byte string is the big-endian form of its number. */
  lemma {:induction false} BigEndianAgain(s: bytes)
    ensures ToBE(FromBE(s), |s|) == s
  {
    hide Pow256, ToBE;
    if s == [] {
      NoBytes();
    } else {
      var high := s[..|s| - 1];
      BigEndianAgain(high);
      LastByte(FromBE(high), s[|s| - 1]);
      OneByteMore(FromBE(s), |s|);
      assert s == high + [s[|s| - 1]];
    }
  }

  lemma NoBytes()
    ensures Pow256(0) == 1 && ToBE(0, 0) == []
  {
  }

  lemma FourByteUint(v: u32, a: u8, b: u8, c: u8, d: u8)
    requires 0x1_0000 <= v == 0x100_0000 * a + 0x1_0000 * b + 0x100 * c + d
    ensures Uint(v) == [0x1A, a, b, c, d]
  {
    hide FromBE, ToBE, Pow256;
    var s: bytes := [a, b, c, d];
    BigEndianAgain(s);
    NumbersAreBigEndian(s, 0);
    assert s[0..4] == s;
  }

  lemma EightByteUint(v: u64, high: u32, low: u32, a: bytes, b: bytes)
    requires 0 < high && v == 0x1_0000_0000 * high + low
    requires |a| == 4 && |b| == 4 && Number4(a, 0) == high && Number4(b, 0) == low
    ensures Uint(v) == [0x1B] + a + b
  {
    hide FromBE, ToBE, Pow256;
    var s := a + b;
    BigEndianAgain(s);
    NumbersAreBigEndian(s, 0);
    assert s[0..8] == s;
    assert [0x1B] + s == [0x1B] + a + b;
  }

  lemma SmallUint(v: u64)
    requires v < 24
    ensures Uint(v) == [v] && ArrayHead(v) == [0x80 + v]
  {
  }

  lemma EndpointBytes(e: Endpoint)
    requires |e.uri| == 16 && EndpointFits(e)
    ensures EncodeEndpoint(e) == [0x82, 0x01, 0x70] + e.uri
  {
    hide Utf8Valid;
    assert Head(TEXT, 16) == [0x70];
    SmallUint(1);
    SmallUint(2);
  }

  /** A block without checksum and flags, of a known type and with four bytes of content. */
  lemma BlockBytes(b: CanonicalBlock, code: u8)
    requires CanonicalFits(b) && b.crc == NoCrc && b.flags == NO_BLOCK_FLAGS && b.number < 24
    requires BlockTypeCode(b.block) == code < 24 && |BlockContent(b.block)| == 4
    ensures EncodeBlock(b) == [0x85, code, b.number, 0x00, 0x00, 0x44] + BlockContent(b.block)
  {
    hide Head, BlockContent, BlockTypeCode, BlockFits, Number, BlockFlagBits, BlockFlagsValue;
    BlockFlagsAre(b.flags);
    SmallUint(code);
    SmallUint(b.number);
    SmallUint(0);
    SmallUint(5);
    var content := BlockContent(b.block);
    assert Head(BYTES, 4) == [0x44] by {
      FourLong();
    }
    assert EncodeBlockIntro(b) == [code, b.number, 0x00, 0x00];
    assert ByteString(content) == [0x44] + content;
    assert content + [] == content;
  }

  lemma FourLong()
    ensures Head(BYTES, 4) == [0x44]
  {
  }

  lemma HopsContent()
    ensures BlockContent(HopCount(32, 0)) == [0x82, 0x18, 0x20, 0x00]
  {
    SmallUint(2);
    SmallUint(0);
    assert Uint(32) == [0x18, 0x20];
  }

  // ----- the bundle

  lemma PrimaryIntroBytes()
    ensures ArrayHead(FieldCount(PRIMARY)) + EncodeIntro(PRIMARY) == [0x88, 0x07, 0x1A, 0x00, 0x02, 0x00, 0x04, 0x00]
  {
    hide Head, BundleFlagsValue, HigherFlagBits, Number, Pow2;
    BundleFlagsAre(PRIMARY.flags);
    FourByteUint(0x2_0004, 0x00, 0x02, 0x00, 0x04);
    SmallUint(8);
    SmallUint(7);
    SmallUint(0);
  }

  lemma TimesBytes()
    ensures EncodeTimestamp(PRIMARY) == [0x82, 0x1B, 0x00, 0x00, 0x00, 0x9E, 0x9D, 0xE3, 0xDE, 0xFE, 0x00]
    ensures Uint(PRIMARY.lifetime) == [0x1A, 0x00, 0x36, 0xEE, 0x80]
  {
    hide Head;
    var a: bytes, b: bytes := [0x00, 0x00, 0x00, 0x9E], [0x9D, 0xE3, 0xDE, 0xFE];
    assert Number4(a, 0) == 0x9E && Number4(b, 0) == 0x9DE3_DEFE;
    EightByteUint(681_253_789_438, 0x9E, 0x9DE3_DEFE, a, b);
    FourByteUint(3_600_000, 0x00, 0x36, 0xEE, 0x80);
    SmallUint(2);
    SmallUint(0);
  }

  lemma PrimaryFitsItsTypes()
    ensures PrimaryFits(PRIMARY)
  {
    hide Utf8Valid;
    AsciiIsUtf8(MAVLINK);
    AsciiIsUtf8(INCOMING);
  }

  lemma PrimaryBytes()
    ensures PrimaryFits(PRIMARY) && EncodePrimary(PRIMARY) == PRIMARY_BYTES
  {
    hide ArrayHead, EncodeIntro, FieldCount, EncodeTimestamp, Uint, EncodeEndpoint, EndpointFits;
    PrimaryFitsItsTypes();
    PrimaryIntroBytes();
    TimesBytes();
    var d, s := EncodeEndpoint(PRIMARY.destination), EncodeEndpoint(PRIMARY.source);
    EndpointBytes(PRIMARY.destination);
    EndpointBytes(PRIMARY.source);
    assert EncodeFragmentInfo(PRIMARY) + EncodeCrc(PRIMARY.crc) == [];
    var h, i, t, l := ArrayHead(FieldCount(PRIMARY)), EncodeIntro(PRIMARY), EncodeTimestamp(PRIMARY), Uint(PRIMARY.lifetime);
    assert l + [] == l;
    Joined(h, i, d, s, t, l);
  }

  lemma Joined(h: bytes, i: bytes, d: bytes, s: bytes, t: bytes, l: bytes)
    ensures h + (i + ((d + (s + s)) + (t + l))) == (h + i) + d + s + s + t + l
  {
  }

  lemma BlocksBytes()
    ensures BlocksFit([HOPS, DATA])
    ensures EncodeBlocks([HOPS, DATA])
            == [0x85, 0x0A, 0x02, 0x00, 0x00, 0x44, 0x82, 0x18, 0x20, 0x00]
               + [0x85, 0x01, 0x01, 0x00, 0x00, 0x44, 0x43, 0x41, 0x42, 0x43]
  {
    hide EncodeBlock, Head;
    HopsContent();
    BlockBytes(HOPS, 10);
    BlockBytes(DATA, 1);
    assert [HOPS, DATA][1..] == [DATA] && [DATA][1..] == [];
    assert EncodeBlocks([DATA]) == EncodeBlock(DATA) + [];
  }

  /** These bytes are what this bundle is written as, and what it is read from. */
  lemma SampleRoundTrip()
    ensures BundleFits(SAMPLE) && EncodeBundle(SAMPLE) == SAMPLE_BYTES
    ensures DecodeBundle(SAMPLE_BYTES) == Parsed(SAMPLE, 103)
  {
    hide EncodePrimary, EncodeBlocks, DecodeBundle, PrimaryFits, CanonicalFits;
    PrimaryBytes();
    BlocksBytes();
    assert EncodeBundle(SAMPLE) == SAMPLE_BYTES;
    BundleRoundTripIff(SAMPLE);
  }
}
