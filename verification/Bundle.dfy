/** Bundles (sections 4.2 and 4.3 of RFC 9171) and their CBOR form, as `bp7` writes and reads them. */
module Bundle {
  import opened Bytes
  import opened Cbor

  /** A DTN endpoint; its URI is UTF-8 text. */
  datatype Endpoint = Endpoint(uri: bytes)

  /** The URI of the null endpoint, "none". */
  const NONE: bytes := [0x6E, 0x6F, 0x6E, 0x65]

  datatype Crc = NoCrc | Crc16(value: bytes) | Crc32(value: bytes)

  datatype BundleFlags = BundleFlags(
    fragment: bool, administrativeRecord: bool, mustNotFragment: bool, ackRequested: bool, statusTimeRequested: bool,
    receptionStatus: bool, forwardingStatus: bool, deliveryStatus: bool, deletionStatus: bool)

  datatype BlockFlags = BlockFlags(mustReplicate: bool, reportUnprocessable: bool, deleteBundle: bool, deleteBlock: bool)

  const NO_BLOCK_FLAGS := BlockFlags(false, false, false, false)

  datatype PrimaryBlock = PrimaryBlock(
    version: u64, flags: BundleFlags, crc: Crc,
    destination: Endpoint, source: Endpoint, reportTo: Endpoint,
    creationTime: u64, sequenceNumber: u64, lifetime: u64,
    fragmentOffset: Option<u64>, totalDataLength: Option<u64>)

  datatype Block =
    | Payload(data: bytes)
    | PreviousNode(node: Endpoint)
    | BundleAge(age: u64)
    | HopCount(limit: u8, count: u8)
    | Unknown(blockType: u64, data: bytes)

  datatype CanonicalBlock = CanonicalBlock(block: Block, number: u64, flags: BlockFlags, crc: Crc)

  datatype Bundle = Bundle(primary: PrimaryBlock, blocks: seq<CanonicalBlock>)

  // ----- flags

  function Bit(b: bool): nat {
    if b then 1 else 0
  }

  function Pow2(n: nat): nat {
    if n == 0 then 1 else 2 * Pow2(n - 1)
  }

  lemma Pow2At19()
    ensures Pow2(5) == 0x20 && Pow2(19) == 0x8_0000
  {
    assert Pow2(5) == 0x20;
    assert Pow2(10) == 0x20 * Pow2(5);
    assert Pow2(15) == 0x20 * Pow2(10);
    assert Pow2(19) == 0x10 * Pow2(15);
  }

  /** The number with these bits, the lowest first. */
  function Number(bits: seq<bool>): (v: nat)
    ensures v < Pow2(|bits|)
  {
    if bits == [] then 0 else Bit(bits[0]) + 2 * Number(bits[1..])
  }

  /** The lowest n bits of a number. */
  function LowBits(v: nat, n: nat): (bits: seq<bool>)
    ensures |bits| == n
  {
    if n == 0 then [] else [v % 2 == 1] + LowBits(v / 2, n - 1)
  }

  lemma {:induction false} BitsRoundTrip(bits: seq<bool>)
    ensures LowBits(Number(bits), |bits|) == bits
  {
    if bits != [] {
      BitsRoundTrip(bits[1..]);
      var n := Number(bits[1..]);
      assert (Bit(bits[0]) + 2 * n) / 2 == n && (Bit(bits[0]) + 2 * n) % 2 == Bit(bits[0]);
      assert LowBits(Number(bits), |bits|) == [bits[0]] + bits[1..];
    }
  }

  function HigherFlagBits(f: BundleFlags): (bits: seq<bool>)
    ensures |bits| == 18
  {
    [f.administrativeRecord, f.mustNotFragment, false, false, f.ackRequested, f.statusTimeRequested,
     false, false, false, false, false, false, false, f.receptionStatus, false, f.forwardingStatus, f.deliveryStatus,
     f.deletionStatus]
  }

  function BundleFlagBits(f: BundleFlags): (bits: seq<bool>)
    ensures |bits| == 19
  {
    [f.fragment] + HigherFlagBits(f)
  }

  function BundleFlagsValue(f: BundleFlags): (v: u64)
    ensures v < 0x8_0000
  {
    Pow2At19(); Number(BundleFlagBits(f))
  }

  /** `from_bits_truncate`: unknown bits are dropped. */
  function BundleFlagsOf(v: u64): BundleFlags {
    var b := LowBits(v, 19);
    BundleFlags(b[0], b[1], b[2], b[5], b[6], b[14], b[16], b[17], b[18])
  }

  function BlockFlagBits(f: BlockFlags): (bits: seq<bool>)
    ensures |bits| == 5
  {
    [f.mustReplicate, f.reportUnprocessable, f.deleteBundle, false, f.deleteBlock]
  }

  function BlockFlagsValue(f: BlockFlags): (v: u64)
    ensures v < 0x20
  {
    Pow2At19(); Number(BlockFlagBits(f))
  }

  function BlockFlagsOf(v: u64): BlockFlags {
    var b := LowBits(v, 5);
    BlockFlags(b[0], b[1], b[2], b[4])
  }

  lemma BundleFlagsRoundTrip(f: BundleFlags)
    ensures BundleFlagsOf(BundleFlagsValue(f)) == f
  {
    hide Number, LowBits;
    BitsRoundTrip(BundleFlagBits(f));
  }

  lemma BlockFlagsRoundTrip(f: BlockFlags)
    ensures BlockFlagsOf(BlockFlagsValue(f)) == f
  {
    hide Number, LowBits;
    BitsRoundTrip(BlockFlagBits(f));
  }

  lemma LowestBit(bits: seq<bool>, bits': seq<bool>)
    requires bits != [] && bits' != [] && !bits[0] && bits'[0] && bits'[1..] == bits[1..]
    ensures Number(bits') == Number(bits) + 1 && Number(bits) % 2 == 0
  {
    hide Pow2;
  }

  lemma SameHigherBits(f: BundleFlags)
    ensures HigherFlagBits(f.(fragment := true)) == HigherFlagBits(f)
  {
  }

  /** The fragment flag is the lowest bit. */
  lemma FragmentFlagValue(f: BundleFlags)
    requires !f.fragment
    ensures BundleFlagsValue(f.(fragment := true)) == BundleFlagsValue(f) + 1 && BundleFlagsValue(f) % 2 == 0
  {
    hide Number, Pow2, HigherFlagBits;
    var f' := f.(fragment := true);
    assert HigherFlagBits(f') == HigherFlagBits(f) by {
      SameHigherBits(f);
    }
    assert BundleFlagBits(f)[1..] == HigherFlagBits(f) && BundleFlagBits(f')[1..] == HigherFlagBits(f');
    LowestBit(BundleFlagBits(f), BundleFlagBits(f'));
  }

  // ----- writing

  predicate CrcFits(crc: Crc) {
    match crc
    case NoCrc => true
    case Crc16(x) => |x| == 2
    case Crc32(x) => |x| == 4
  }

  predicate EndpointFits(e: Endpoint) {
    Utf8Valid(e.uri) && |e.uri| < 0x1_0000_0000_0000_0000
  }

  /** The shapes the source's types allow, and an offset that comes with a total length. */
  predicate PrimaryFits(p: PrimaryBlock) {
    && CrcFits(p.crc) && EndpointFits(p.destination) && EndpointFits(p.source) && EndpointFits(p.reportTo)
    && (p.fragmentOffset.Some? ==> p.totalDataLength.Some?)
  }

  predicate BlockFits(b: Block) {
    match b
    case Payload(data) => |data| < 0x1_0000_0000_0000_0000
    case PreviousNode(node) => EndpointFits(node) && |node.uri| < 0x8000_0000_0000_0000
    case Unknown(_, data) => |data| < 0x1_0000_0000_0000_0000
    case _ => true
  }

  predicate CanonicalFits(b: CanonicalBlock) {
    BlockFits(b.block) && CrcFits(b.crc)
  }

  predicate BlocksFit(bs: seq<CanonicalBlock>) {
    forall i :: 0 <= i < |bs| ==> CanonicalFits(bs[i])
  }

  predicate BundleFits(b: Bundle) {
    PrimaryFits(b.primary) && BlocksFit(b.blocks)
  }

  function CrcCode(crc: Crc): (v: u64)
    ensures v <= 2
  {
    match crc
    case NoCrc => 0
    case Crc16(_) => 1
    case Crc32(_) => 2
  }

  /** The checksum goes out as an array of numbers, one per byte. */
  function EncodeCrcValue(crc: Crc): (s: bytes)
    requires CrcFits(crc) && crc != NoCrc
    ensures |s| <= 9
  {
    var x := crc.value;
    if |x| == 2 then ArrayHead(2) + (Uint(x[0]) + Uint(x[1]))
    else ArrayHead(4) + (Uint(x[0]) + (Uint(x[1]) + (Uint(x[2]) + Uint(x[3]))))
  }

  function EncodeCrc(crc: Crc): (s: bytes)
    requires CrcFits(crc)
    ensures |s| <= 9
  {
    if crc == NoCrc then [] else EncodeCrcValue(crc)
  }

  /** The scheme number, then the URI, or 0 for the null endpoint. */
  function EncodeEndpoint(e: Endpoint): (s: bytes)
    requires EndpointFits(e)
    ensures |e.uri| < 0x8000_0000_0000_0000 ==> |s| < 0x1_0000_0000_0000_0000
  {
    ArrayHead(2) + (Uint(1) + if e.uri == NONE then Uint(0) else Text(e.uri))
  }

  function EncodeTimestamp(p: PrimaryBlock): bytes {
    ArrayHead(2) + (Uint(p.creationTime) + Uint(p.sequenceNumber))
  }

  function FieldCount(p: PrimaryBlock): (n: u64)
    ensures 8 <= n <= 11
  {
    8 + (if p.fragmentOffset.Some? then 2 else 0) + if p.crc != NoCrc then 1 else 0
  }

  function EncodeIntro(p: PrimaryBlock): bytes {
    Uint(p.version) + (Uint(BundleFlagsValue(p.flags)) + Uint(CrcCode(p.crc)))
  }

  function EncodeEndpoints(p: PrimaryBlock): bytes
    requires PrimaryFits(p)
  {
    EncodeEndpoint(p.destination) + (EncodeEndpoint(p.source) + EncodeEndpoint(p.reportTo))
  }

  function EncodeFragmentInfo(p: PrimaryBlock): (s: bytes)
    requires PrimaryFits(p)
    ensures |s| == if p.fragmentOffset.Some? then HeadSize(p.fragmentOffset.value) + HeadSize(p.totalDataLength.value)
                   else 0
  {
    if p.fragmentOffset.Some? then Uint(p.fragmentOffset.value) + Uint(p.totalDataLength.value) else []
  }

  function EncodePrimary(p: PrimaryBlock): bytes
    requires PrimaryFits(p)
  {
    ArrayHead(FieldCount(p)) + (EncodeIntro(p) + (EncodeEndpoints(p) + (EncodeTimestamp(p) + (Uint(p.lifetime)
    + (EncodeFragmentInfo(p) + EncodeCrc(p.crc))))))
  }

  function BlockTypeCode(b: Block): u64 {
    match b
    case Payload(_) => 1
    case PreviousNode(_) => 6
    case BundleAge(_) => 7
    case HopCount(_, _) => 10
    case Unknown(t, _) => t
  }

  /** The content of a block; but for payloads and unknown blocks it is CBOR inside the byte string. */
  function BlockContent(b: Block): (s: bytes)
    requires BlockFits(b)
    ensures |s| < 0x1_0000_0000_0000_0000
  {
    match b
    case Payload(data) => data
    case PreviousNode(node) => EncodeEndpoint(node)
    case BundleAge(age) => Uint(age)
    case HopCount(limit, count) => ArrayHead(2) + (Uint(limit) + Uint(count))
    case Unknown(_, data) => data
  }

  function EncodeBlockIntro(b: CanonicalBlock): bytes {
    Uint(BlockTypeCode(b.block)) + (Uint(b.number) + (Uint(BlockFlagsValue(b.flags)) + Uint(CrcCode(b.crc))))
  }

  function EncodeBlock(b: CanonicalBlock): bytes
    requires CanonicalFits(b)
  {
    ArrayHead(if b.crc == NoCrc then 5 else 6)
    + (EncodeBlockIntro(b) + (ByteString(BlockContent(b.block)) + EncodeCrc(b.crc)))
  }

  function EncodeBlocks(bs: seq<CanonicalBlock>): bytes
    requires BlocksFit(bs)
  {
    if bs == [] then [] else EncodeBlock(bs[0]) + EncodeBlocks(bs[1..])
  }

  /** An array of unknown length, closed by a break. */
  function EncodeBundle(b: Bundle): bytes
    requires BundleFits(b)
  {
    [0x9F] + (EncodePrimary(b.primary) + (EncodeBlocks(b.blocks) + [0xFF]))
  }

  // ----- reading

  function ReadCrcType(s: bytes, i: nat): (r: Parsed<Crc>)
    ensures r.Parsed? ==> i < r.next <= |s|
  {
    var v :- ReadUint(s, i);
    if v.value == 0 then Parsed(NoCrc, v.next)
    else if v.value == 1 then Parsed(Crc16([0, 0]), v.next)
    else if v.value == 2 then Parsed(Crc32([0, 0, 0, 0]), v.next)
    else Malformed
  }

  /** The checksum is expected as a byte string; there must be one if the array is long enough. */
  function ReadCrc(s: bytes, i: nat, crc: Crc, present: bool): (r: Parsed<Crc>)
    requires i <= |s|
    ensures r.Parsed? ==> i <= r.next <= |s|
  {
    if !present then Parsed(crc, i)
    else if crc == NoCrc then Panics
    else
      var x :- ReadBytes(s, i);
      if crc.Crc16? then if |x.value| == 2 then Parsed(Crc16(x.value), x.next) else Malformed
      else if |x.value| == 4 then Parsed(Crc32(x.value), x.next) else Malformed
  }

  /** Behind the two elements of an array with n, or with unknown many, elements. */
  function ClosePair(s: bytes, n: Option<u64>, i: nat): (r: Parsed<()>)
    ensures r.Parsed? ==> i <= r.next && (n.None? ==> r.next <= |s|) && (n.Some? ==> r.next == i)
  {
    match n
    case Some(k) => if k == 2 then Parsed((), i) else Malformed
    case None => if i < |s| && s[i] == 0xFF then Parsed((), i + 1) else Malformed
  }

  /** The URI of a DTN endpoint: text, or 0. */
  function ReadUri(s: bytes, i: nat): (r: Parsed<bytes>)
    ensures r.Parsed? ==> i < r.next <= |s|
  {
    var h := ReadHead(s, i);
    if h.Definite? && h.major == UINT then if h.value == 0 then Parsed(NONE, h.next) else Malformed
    else if h.Definite? && h.major == TEXT && h.next + h.value <= |s| && Utf8Valid(s[h.next..h.next + h.value]) then
      Parsed(s[h.next..h.next + h.value], h.next + h.value)
    else Malformed
  }

  function ReadEndpoint(s: bytes, i: nat): (r: Parsed<Endpoint>)
    ensures r.Parsed? ==> i < r.next <= |s|
  {
    var n :- ReadArray(s, i);
    var scheme :- ReadUint(s, n.next);
    if scheme.value == 2 then Unmodelled
    else if scheme.value != 1 then Malformed
    else
      var uri :- ReadUri(s, scheme.next);
      var close :- ClosePair(s, n.value, uri.next);
      Parsed(Endpoint(uri.value), close.next)
  }

  function ReadTwo(s: bytes, i: nat): (r: Parsed<(u64, u64)>)
    ensures r.Parsed? ==> i < r.next <= |s|
  {
    var x :- ReadUint(s, i);
    var y :- ReadUint(s, x.next);
    Parsed((x.value, y.value), y.next)
  }

  function ReadTimestamp(s: bytes, i: nat): (r: Parsed<(u64, u64)>)
    ensures r.Parsed? ==> i < r.next <= |s|
  {
    var n :- ReadArray(s, i);
    var v :- ReadTwo(s, n.next);
    var close :- ClosePair(s, n.value, v.next);
    Parsed(v.value, close.next)
  }

  datatype Intro = Intro(version: u64, flags: BundleFlags, crc: Crc)

  function ReadIntro(s: bytes, i: nat): (r: Parsed<Intro>)
    ensures r.Parsed? ==> i < r.next <= |s|
  {
    var v :- ReadTwo(s, i);
    var crc :- ReadCrcType(s, v.next);
    Parsed(Intro(v.value.0, BundleFlagsOf(v.value.1), crc.value), crc.next)
  }

  function ReadEndpoints(s: bytes, i: nat): (r: Parsed<(Endpoint, Endpoint, Endpoint)>)
    ensures r.Parsed? ==> i < r.next <= |s|
  {
    var d :- ReadEndpoint(s, i);
    var o :- ReadEndpoint(s, d.next);
    var r :- ReadEndpoint(s, o.next);
    Parsed((d.value, o.value, r.value), r.next)
  }

  function ReadFragmentInfo(s: bytes, i: nat, present: bool): (r: Parsed<(Option<u64>, Option<u64>)>)
    requires i <= |s|
    ensures r.Parsed? ==> i <= r.next <= |s|
  {
    if !present then Parsed((None, None), i) else
    var v :- ReadTwo(s, i);
    Parsed((Some(v.value.0), Some(v.value.1)), v.next)
  }

  /** The length of the array decides which optional fields there are; an array of unknown length is a panic. */
  function ReadPrimary(s: bytes, i: nat): (r: Parsed<PrimaryBlock>)
    ensures r.Parsed? ==> i < r.next <= |s|
  {
    var n :- ReadArray(s, i);
    if n.value.None? then Panics
    else if !(8 <= n.value.value <= 11) then Malformed
    else
      var size := n.value.value;
      var intro :- ReadIntro(s, n.next);
      var es :- ReadEndpoints(s, intro.next);
      var ts :- ReadTimestamp(s, es.next);
      var life :- ReadUint(s, ts.next);
      var frag :- ReadFragmentInfo(s, life.next, size >= 10);
      var crc :- ReadCrc(s, frag.next, intro.value.crc, size == 9 || size == 11);
      Parsed(PrimaryBlock(intro.value.version, intro.value.flags, crc.value, es.value.0, es.value.1, es.value.2,
                          ts.value.0, ts.value.1, life.value, frag.value.0, frag.value.1), crc.next)
  }

  /** Content that must be one CBOR value with nothing behind it. */
  function Exactly<T>(content: bytes, r: Parsed<T>): Parsed<T> {
    if r.Parsed? && r.next != |content| then Malformed else r
  }

  function ReadHopCount(s: bytes, i: nat): (r: Parsed<(u8, u8)>)
    ensures r.Parsed? ==> i < r.next <= |s|
  {
    var n :- ReadArray(s, i);
    if n.value != Some(2) then Malformed else
    var v :- ReadTwo(s, n.next);
    if v.value.0 < 0x100 && v.value.1 < 0x100 then Parsed(v.value, v.next) else Malformed
  }

  function ReadContent(t: u64, content: bytes): Parsed<Block> {
    if t == 1 then Parsed(Payload(content), |content|)
    else if t == 6 then
      var e :- Exactly(content, ReadEndpoint(content, 0));
      Parsed(PreviousNode(e.value), e.next)
    else if t == 7 then
      var v :- Exactly(content, ReadUint(content, 0));
      Parsed(BundleAge(v.value), v.next)
    else if t == 10 then
      var h :- Exactly(content, ReadHopCount(content, 0));
      Parsed(HopCount(h.value.0, h.value.1), h.next)
    else Parsed(Unknown(t, content), |content|)
  }

  datatype BlockIntro = BlockIntro(blockType: u64, number: u64, flags: BlockFlags, crc: Crc)

  function ReadBlockIntro(s: bytes, i: nat): (r: Parsed<BlockIntro>)
    ensures r.Parsed? ==> i < r.next <= |s|
  {
    var v :- ReadTwo(s, i);
    var flags :- ReadUint(s, v.next);
    var crc :- ReadCrcType(s, flags.next);
    Parsed(BlockIntro(v.value.0, v.value.1, BlockFlagsOf(flags.value), crc.value), crc.next)
  }

  function ReadBlock(s: bytes, i: nat): (r: Parsed<CanonicalBlock>)
    ensures r.Parsed? ==> i < r.next <= |s|
  {
    var n :- ReadArray(s, i);
    if n.value != Some(5) && n.value != Some(6) then Malformed else
    var intro :- ReadBlockIntro(s, n.next);
    var content :- ReadBytes(s, intro.next);
    var block :- ReadContent(intro.value.blockType, content.value);
    var crc :- ReadCrc(s, content.next, intro.value.crc, n.value == Some(6));
    Parsed(CanonicalBlock(block.value, intro.value.number, intro.value.flags, crc.value), crc.next)
  }

  /** Blocks up to the end of the array, which is known, or marked by a break. */
  function ReadBlocks(s: bytes, i: nat, left: Option<u64>): (r: Parsed<seq<CanonicalBlock>>)
    requires i <= |s|
    ensures r.Parsed? ==> i <= r.next <= |s|
    decreases |s| - i
  {
    if left == Some(0) then Parsed([], i)
    else if left.None? && i < |s| && s[i] == 0xFF then Parsed([], i + 1)
    else
      var b :- ReadBlock(s, i);
      var bs :- ReadBlocks(s, b.next, if left.Some? then Some(left.value - 1) else None);
      Parsed([b.value] + bs.value, bs.next)
  }

  /** The rest of a bundle whose primary block ends at i; there must be a block, and nothing behind the array. */
  function FinishBundle(s: bytes, p: PrimaryBlock, i: nat, left: Option<u64>): Parsed<Bundle>
    requires i <= |s|
  {
    var bs :- ReadBlocks(s, i, left);
    if bs.value == [] || bs.next != |s| then Malformed else Parsed(Bundle(p, bs.value), |s|)
  }

  function ReadBundle(s: bytes, i: nat, n: Option<u64>): Parsed<Bundle> {
    hide ReadPrimary;
    if n == Some(0) then Malformed else
    var p :- ReadPrimary(s, i);
    FinishBundle(s, p.value, p.next, if n.Some? then Some(n.value - 1) else None)
  }

  function DecodeBundle(s: bytes): Parsed<Bundle> {
    var n :- ReadArray(s, 0);
    ReadBundle(s, n.next, n.value)
  }
}
