/** The items a bundle is made of, in their order, told by a reader of CBOR that knows nothing of bundles (sections 4.2
    and 4.3 of RFC 9171). */
module BundleLayout {
  import opened Bytes
  import opened Cbor
  import opened Bundle
  import opened BundleRoundTrip
  import opened WireFormat

  // ----- heads in numbers

  /** The bytes of a shortest head (section 3 of RFC 8949). */
  lemma HeadForm(major: nat, v: u64)
    requires major < 8
    ensures var s := Head(major, v);
            && s[0] / 32 == major
            && (v < 24 ==> |s| == 1 && s[0] % 32 == v)
            && (24 <= v < 256 ==> |s| == 2 && s[0] % 32 == 24 && s[1] == v)
            && (256 <= v < 65536 ==> |s| == 3 && s[0] % 32 == 25 && Number2(s, 1) == v)
            && (65536 <= v < 0x1_0000_0000 ==> |s| == 5 && s[0] % 32 == 26 && Number4(s, 1) == v)
            && (0x1_0000_0000 <= v ==> |s| == 9 && s[0] % 32 == 27 && Number8(s, 1) == v)
  {
    hide FromBE, ToBE, Pow256, Be16, Be32, Be64, Number2, Number4, Number8;
    var s := Head(major, v);
    NumbersAreBigEndian(s, 1);
    if 256 <= v < 65536 {
      assert s[1..3] == Be16(v);
    } else if 65536 <= v < 0x1_0000_0000 {
      assert s[1..5] == Be32(v);
    } else if 0x1_0000_0000 <= v {
      assert s[1..9] == Be64(v);
    }
  }

  // ----- items

  datatype Item = UInt(value: u64) | Blob(data: bytes) | Str(text: bytes) | List(items: seq<Item>)

  /** The item at position i. */
  function ReadItem(s: bytes, i: nat): (r: Parsed<Item>)
    requires i <= |s|
    ensures r.Parsed? ==> i < r.next <= |s|
    decreases |s| - i, 0
  {
    match ReadHead(s, i)
    case NoHead => Malformed
    case Definite(major, v, next) =>
      if major == 0 then Parsed(UInt(v), next)
      else if major == 2 && next + v <= |s| then Parsed(Blob(s[next..next + v]), next + v)
      else if major == 3 && next + v <= |s| then Parsed(Str(s[next..next + v]), next + v)
      else if major == 4 then
        var xs :- ReadItems(s, next, v);
        Parsed(List(xs.value), xs.next)
      else Malformed
    case Indefinite(major, next) =>
      if major != 4 then Malformed else
      var xs :- ReadToBreak(s, next);
      Parsed(List(xs.value), xs.next)
  }

  function ReadItems(s: bytes, i: nat, n: nat): (r: Parsed<seq<Item>>)
    requires i <= |s|
    ensures r.Parsed? ==> i <= r.next <= |s|
    decreases |s| - i, 1
  {
    if n == 0 then Parsed([], i) else
    var x :- ReadItem(s, i);
    var xs :- ReadItems(s, x.next, n - 1);
    Parsed([x.value] + xs.value, xs.next)
  }

  function ReadToBreak(s: bytes, i: nat): (r: Parsed<seq<Item>>)
    requires i <= |s|
    ensures r.Parsed? ==> i <= r.next <= |s|
    decreases |s| - i, 1
  {
    if i < |s| && s[i] == 0xFF then Parsed([], i + 1) else
    var x :- ReadItem(s, i);
    var xs :- ReadToBreak(s, x.next);
    Parsed([x.value] + xs.value, xs.next)
  }

  // ----- the items of a bundle

  function Weighed(b: bool, weight: nat): nat {
    if b then weight else 0
  }

  function BundleFlagsNumber(f: BundleFlags): u64 {
    Weighed(f.fragment, 0x1) + Weighed(f.administrativeRecord, 0x2) + Weighed(f.mustNotFragment, 0x4)
    + Weighed(f.ackRequested, 0x20) + Weighed(f.statusTimeRequested, 0x40) + Weighed(f.receptionStatus, 0x4000)
    + Weighed(f.forwardingStatus, 0x1_0000) + Weighed(f.deliveryStatus, 0x2_0000) + Weighed(f.deletionStatus, 0x4_0000)
  }

  function BlockFlagsNumber(f: BlockFlags): u64 {
    Weighed(f.mustReplicate, 1) + Weighed(f.reportUnprocessable, 2) + Weighed(f.deleteBundle, 4) + Weighed(f.deleteBlock, 16)
  }

  /** The URI scheme "dtn", and the rest of the URI, or 0 for "none". */
  function EndpointItem(e: Endpoint): Item {
    List([UInt(1), if e.uri == [0x6E, 0x6F, 0x6E, 0x65] then UInt(0) else Str(e.uri)])
  }

  function CrcNumber(crc: Crc): u64 {
    if crc.NoCrc? then 0 else if crc.Crc16? then 1 else 2
  }

  function Numbers(x: bytes): seq<Item> {
    seq(|x|, i requires 0 <= i < |x| => UInt(x[i]))
  }

  /** A checksum, as an array of its bytes. */
  function CrcItems(crc: Crc): seq<Item> {
    if crc.NoCrc? then [] else [List(Numbers(crc.value))]
  }

  function FragmentItems(p: PrimaryBlock): seq<Item>
    requires PrimaryFits(p)
  {
    if p.fragmentOffset.Some? then [UInt(p.fragmentOffset.value), UInt(p.totalDataLength.value)] else []
  }

  function PrimaryItem(p: PrimaryBlock): Item
    requires PrimaryFits(p)
  {
    List([UInt(p.version), UInt(BundleFlagsNumber(p.flags)), UInt(CrcNumber(p.crc)), EndpointItem(p.destination),
          EndpointItem(p.source), EndpointItem(p.reportTo), List([UInt(p.creationTime), UInt(p.sequenceNumber)]),
          UInt(p.lifetime)] + FragmentItems(p) + CrcItems(p.crc))
  }

  function BlockNumber(b: Block): u64 {
    match b
    case Payload(_) => 1
    case PreviousNode(_) => 6
    case BundleAge(_) => 7
    case HopCount(_, _) => 10
    case Unknown(t, _) => t
  }

  /** The content of a block is its data, or holds a single item. */
  predicate HasContent(b: Block, content: bytes) {
    match b
    case Payload(data) => content == data
    case Unknown(_, data) => content == data
    case PreviousNode(node) => ReadItem(content, 0) == Parsed(EndpointItem(node), |content|)
    case BundleAge(age) => ReadItem(content, 0) == Parsed(UInt(age), |content|)
    case HopCount(limit, count) => ReadItem(content, 0) == Parsed(List([UInt(limit), UInt(count)]), |content|)
  }

  function BlockItem(b: CanonicalBlock, content: bytes): Item {
    List([UInt(BlockNumber(b.block)), UInt(b.number), UInt(BlockFlagsNumber(b.flags)), UInt(CrcNumber(b.crc)),
          Blob(content)] + CrcItems(b.crc))
  }

  /** The items of the blocks, each with some content that fits its block. */
  ghost predicate BlockItems(bs: seq<CanonicalBlock>, items: seq<Item>) {
    |items| == |bs| && forall k :: 0 <= k < |bs| ==> IsBlockItem(bs[k], items[k])
  }

  ghost predicate IsBlockItem(b: CanonicalBlock, item: Item) {
    exists content :: HasContent(b.block, content) && item == BlockItem(b, content)
  }

  // ----- flags

  lemma NumberCons(b: bool, bits: seq<bool>)
    ensures Number([b] + bits) == (if b then 1 else 0) + 2 * Number(bits)
  {
    assert ([b] + bits)[1..] == bits;
  }

  lemma NumberOne(b: bool)
    ensures Number([b]) == if b then 1 else 0
  {
    assert [b][1..] == [];
  }

  /** The bits from position 14 on: 14, 16, 17 and 18. */
  lemma HighFlags(f: BundleFlags)
    ensures var bits := [f.receptionStatus, false, f.forwardingStatus, f.deliveryStatus, f.deletionStatus];
            Number(bits) == Weighed(f.receptionStatus, 1) + Weighed(f.forwardingStatus, 4) + Weighed(f.deliveryStatus, 8)
                            + Weighed(f.deletionStatus, 16)
  {
    hide Number;
    var b18 := [f.deletionStatus];
    var b17, b16 := [f.deliveryStatus] + b18, [f.forwardingStatus] + ([f.deliveryStatus] + b18);
    NumberOne(f.deletionStatus);
    NumberCons(f.deliveryStatus, b18);
    NumberCons(f.forwardingStatus, b17);
    NumberCons(false, b16);
    NumberCons(f.receptionStatus, [false] + b16);
    assert [f.receptionStatus, false, f.forwardingStatus, f.deliveryStatus, f.deletionStatus]
           == [f.receptionStatus] + ([false] + b16);
  }

  /** Seven unused bits. */
  lemma Shifted(bits: seq<bool>)
    ensures Number([false, false, false, false, false, false, false] + bits) == 128 * Number(bits)
  {
    hide Number;
    var b1 := [false] + bits;
    var b2 := [false] + b1;
    var b3 := [false] + b2;
    var b4 := [false] + b3;
    var b5 := [false] + b4;
    var b6 := [false] + b5;
    NumberCons(false, bits);
    NumberCons(false, b1);
    NumberCons(false, b2);
    NumberCons(false, b3);
    NumberCons(false, b4);
    NumberCons(false, b5);
    NumberCons(false, b6);
    assert [false, false, false, false, false, false, false] + bits == [false] + b6;
  }

  lemma SixBits(b0: bool, b1: bool, b2: bool, b3: bool, b4: bool, b5: bool, bits: seq<bool>)
    ensures Number([b0, b1, b2, b3, b4, b5] + bits)
            == Weighed(b0, 1) + Weighed(b1, 2) + Weighed(b2, 4) + Weighed(b3, 8) + Weighed(b4, 16) + Weighed(b5, 32)
               + 64 * Number(bits)
  {
    hide Number;
    var x5 := [b5] + bits;
    var x4 := [b4] + x5;
    var x3 := [b3] + x4;
    var x2 := [b2] + x3;
    var x1 := [b1] + x2;
    NumberCons(b5, bits);
    NumberCons(b4, x5);
    NumberCons(b3, x4);
    NumberCons(b2, x3);
    NumberCons(b1, x2);
    NumberCons(b0, x1);
    assert [b0, b1, b2, b3, b4, b5] + bits == [b0] + x1;
  }

  lemma FlagBitsSplit(f: BundleFlags)
    ensures HigherFlagBits(f)
            == [f.administrativeRecord, f.mustNotFragment, false, false, f.ackRequested, f.statusTimeRequested]
               + ([false, false, false, false, false, false, false]
                  + [f.receptionStatus, false, f.forwardingStatus, f.deliveryStatus, f.deletionStatus])
  {
  }

  lemma BundleFlagsAre(f: BundleFlags)
    ensures BundleFlagsValue(f) == BundleFlagsNumber(f)
  {
    hide Number, Pow2, HigherFlagBits;
    var high := [f.receptionStatus, false, f.forwardingStatus, f.deliveryStatus, f.deletionStatus];
    var mid := [false, false, false, false, false, false, false] + high;
    FlagBitsSplit(f);
    HighFlags(f);
    Shifted(high);
    SixBits(f.administrativeRecord, f.mustNotFragment, false, false, f.ackRequested, f.statusTimeRequested, mid);
    NumberCons(f.fragment, HigherFlagBits(f));
  }

  lemma BlockFlagsAre(f: BlockFlags)
    ensures BlockFlagsValue(f) == BlockFlagsNumber(f)
  {
    hide Number, Pow2;
    var b4 := [f.deleteBlock];
    var b3 := [false] + b4;
    var b2 := [f.deleteBundle] + b3;
    var b1 := [f.reportUnprocessable] + b2;
    NumberOne(f.deleteBlock);
    NumberCons(false, b4);
    NumberCons(f.deleteBundle, b3);
    NumberCons(f.reportUnprocessable, b2);
    NumberCons(f.mustReplicate, b1);
    assert BlockFlagBits(f) == [f.mustReplicate] + b1;
  }

  // ----- reading what was written

  /** s holds the encodings of the items xs from i to j. */
  ghost predicate Holds(s: bytes, i: nat, xs: seq<Item>, j: nat) {
    i <= |s| && ReadItems(s, i, |xs|) == Parsed(xs, j)
  }

  lemma UintItem(s: bytes, i: nat, v: u64)
    requires At(s, i, Uint(v))
    ensures Holds(s, i, [UInt(v)], i + HeadSize(v)) && ReadItem(s, i) == Parsed(UInt(v), i + HeadSize(v))
  {
    hide Head, ReadHead;
    AtWithin(s, i, Uint(v));
    HeadRoundTrip(s, i, UINT, v);
    SingleItem(s, i, UInt(v), i + HeadSize(v));
  }

  lemma SingleItem(s: bytes, i: nat, x: Item, j: nat)
    requires i <= |s| && ReadItem(s, i) == Parsed(x, j)
    ensures Holds(s, i, [x], j)
  {
    hide ReadItem;
    assert ReadItems(s, j, 0) == Parsed([], j);
    assert [x] + [] == [x];
  }

  lemma {:induction false} MoreItems(s: bytes, i: nat, xs: seq<Item>, j: nat, ys: seq<Item>, k: nat)
    requires Holds(s, i, xs, j) && Holds(s, j, ys, k)
    ensures Holds(s, i, xs + ys, k)
    decreases |xs|
  {
    hide ReadItem;
    if xs == [] {
      assert xs + ys == ys;
    } else {
      var x := ReadItem(s, i);
      assert xs == [x.value] + xs[1..] by {
        assert xs[1..] == ReadItems(s, x.next, |xs| - 1).value;
      }
      MoreItems(s, x.next, xs[1..], j, ys, k);
      assert xs + ys == [x.value] + (xs[1..] + ys);
    }
  }

  /** An array head and its items are an array. */
  lemma ListItem(s: bytes, i: nat, xs: seq<Item>, j: nat)
    requires |xs| < 24 && At(s, i, ArrayHead(|xs|)) && Holds(s, i + 1, xs, j)
    ensures ReadItem(s, i) == Parsed(List(xs), j) && Holds(s, i, [List(xs)], j)
  {
    hide Head, ReadHead, ReadItems;
    AtWithin(s, i, ArrayHead(|xs|));
    HeadRoundTrip(s, i, ARRAY, |xs|);
    SingleItem(s, i, List(xs), j);
  }

  lemma BlobItem(s: bytes, i: nat, t: bytes)
    requires |t| < 0x1_0000_0000_0000_0000 && At(s, i, ByteString(t))
    ensures Holds(s, i, [Blob(t)], i + |ByteString(t)|)
  {
    hide Head, ReadHead;
    AtWithin(s, i, ByteString(t));
    AtSplit(s, i, Head(BYTES, |t|), t);
    HeadRoundTrip(s, i, BYTES, |t|);
    SingleItem(s, i, Blob(t), i + |ByteString(t)|);
  }

  lemma UriItem(s: bytes, i: nat, uri: bytes)
    requires EndpointFits(Endpoint(uri)) && At(s, i, if uri == NONE then Uint(0) else Text(uri))
    ensures Holds(s, i, [if uri == NONE then UInt(0) else Str(uri)], i + if uri == NONE then 1 else |Text(uri)|)
  {
    hide Head, ReadHead, Utf8Valid;
    if uri == NONE {
      UintItem(s, i, 0);
    } else {
      AtWithin(s, i, Text(uri));
      AtSplit(s, i, Head(TEXT, |uri|), uri);
      HeadRoundTrip(s, i, TEXT, |uri|);
      SingleItem(s, i, Str(uri), i + |Text(uri)|);
    }
  }

  lemma EndpointIsItem(s: bytes, i: nat, e: Endpoint)
    requires EndpointFits(e) && At(s, i, EncodeEndpoint(e))
    ensures Holds(s, i, [EndpointItem(e)], i + |EncodeEndpoint(e)|)
    ensures i <= |s| && ReadItem(s, i) == Parsed(EndpointItem(e), i + |EncodeEndpoint(e)|)
  {
    hide Uint, ArrayHead, Text, At, Utf8Valid, Holds, ReadItem;
    AtWithin(s, i, EncodeEndpoint(e));
    var uri := if e.uri == NONE then Uint(0) else Text(e.uri);
    var last := if e.uri == NONE then UInt(0) else Str(e.uri);
    AtSplit(s, i, ArrayHead(2), Uint(1) + uri);
    AtSplit(s, i + 1, Uint(1), uri);
    UintItem(s, i + 1, 1);
    UriItem(s, i + 2, e.uri);
    var j := i + 2 + |uri|;
    MoreItems(s, i + 1, [UInt(1)], i + 2, [last], j);
    assert [UInt(1)] + [last] == [UInt(1), last];
    ListItem(s, i, [UInt(1), last], j);
  }

  lemma TwoItems(s: bytes, i: nat, x: u64, y: u64)
    requires At(s, i, Uint(x) + Uint(y))
    ensures Holds(s, i, [UInt(x), UInt(y)], i + HeadSize(x) + HeadSize(y))
  {
    hide Uint, At, HeadSize, Holds;
    AtSplit(s, i, Uint(x), Uint(y));
    UintItem(s, i, x);
    UintItem(s, i + HeadSize(x), y);
    MoreItems(s, i, [UInt(x)], i + HeadSize(x), [UInt(y)], i + HeadSize(x) + HeadSize(y));
    assert [UInt(x)] + [UInt(y)] == [UInt(x), UInt(y)];
  }

  lemma CrcIsItem(s: bytes, i: nat, crc: Crc)
    requires CrcFits(crc) && At(s, i, EncodeCrc(crc))
    ensures Holds(s, i, CrcItems(crc), i + |EncodeCrc(crc)|)
  {
    hide Uint, ArrayHead, At, Holds;
    AtWithin(s, i, EncodeCrc(crc));
    if crc.NoCrc? {
      NoItems(s, i);
    } else {
      var x := crc.value;
      if crc.Crc16? {
        AtSplit(s, i, ArrayHead(2), Uint(x[0]) + Uint(x[1]));
        TwoItems(s, i + 1, x[0], x[1]);
        assert Numbers(x) == [UInt(x[0]), UInt(x[1])];
      } else {
        var a, b, c, d := Uint(x[0]), Uint(x[1]), Uint(x[2]), Uint(x[3]);
        AtSplit(s, i, ArrayHead(4), a + (b + (c + d)));
        Assoc(a, b, c + d);
        AtSplit(s, i + 1, a + b, c + d);
        TwoItems(s, i + 1, x[0], x[1]);
        var j := i + 1 + |a| + |b|;
        TwoItems(s, j, x[2], x[3]);
        MoreItems(s, i + 1, [UInt(x[0]), UInt(x[1])], j, [UInt(x[2]), UInt(x[3])], j + |c| + |d|);
        assert Numbers(x) == [UInt(x[0]), UInt(x[1])] + [UInt(x[2]), UInt(x[3])];
      }
      ListItem(s, i, Numbers(x), i + |EncodeCrc(crc)|);
    }
  }

  lemma NoItems(s: bytes, i: nat)
    requires i <= |s|
    ensures Holds(s, i, [], i)
  {
  }

  // ----- the primary block

  lemma IntroItems(s: bytes, i: nat, p: PrimaryBlock)
    requires At(s, i, EncodeIntro(p))
    ensures Holds(s, i, [UInt(p.version), UInt(BundleFlagsNumber(p.flags)), UInt(CrcNumber(p.crc))],
                  i + |EncodeIntro(p)|)
  {
    hide Uint, At, BundleFlagsValue, BundleFlagsNumber, HeadSize, Holds;
    BundleFlagsAre(p.flags);
    var v, f, c := Uint(p.version), Uint(BundleFlagsValue(p.flags)), Uint(CrcCode(p.crc));
    Assoc(v, f, c);
    AtSplit(s, i, v + f, c);
    TwoItems(s, i, p.version, BundleFlagsValue(p.flags));
    var j := i + |v| + |f|;
    UintItem(s, j, CrcCode(p.crc));
    var xs, ys := [UInt(p.version), UInt(BundleFlagsNumber(p.flags))], [UInt(CrcNumber(p.crc))];
    MoreItems(s, i, xs, j, ys, j + |c|);
    assert xs + ys == [UInt(p.version), UInt(BundleFlagsNumber(p.flags)), UInt(CrcNumber(p.crc))];
  }

  lemma EndpointItems(s: bytes, i: nat, p: PrimaryBlock)
    requires PrimaryFits(p) && At(s, i, EncodeEndpoints(p))
    ensures Holds(s, i, [EndpointItem(p.destination), EndpointItem(p.source), EndpointItem(p.reportTo)],
                  i + |EncodeEndpoints(p)|)
  {
    hide EncodeEndpoint, At, EndpointFits, CrcFits, EndpointItem, Holds, ReadItem;
    var d, o, r := EncodeEndpoint(p.destination), EncodeEndpoint(p.source), EncodeEndpoint(p.reportTo);
    AtSplit(s, i, d, o + r);
    AtSplit(s, i + |d|, o, r);
    EndpointIsItem(s, i, p.destination);
    EndpointIsItem(s, i + |d|, p.source);
    EndpointIsItem(s, i + |d| + |o|, p.reportTo);
    var x, y, z := [EndpointItem(p.destination)], [EndpointItem(p.source)], [EndpointItem(p.reportTo)];
    MoreItems(s, i + |d|, y, i + |d| + |o|, z, i + |d| + |o| + |r|);
    MoreItems(s, i, x, i + |d|, y + z, i + |d| + |o| + |r|);
    assert x + (y + z) == [EndpointItem(p.destination), EndpointItem(p.source), EndpointItem(p.reportTo)];
  }

  lemma TimeItems(s: bytes, i: nat, p: PrimaryBlock)
    requires At(s, i, EncodeTimestamp(p) + Uint(p.lifetime))
    ensures Holds(s, i, [List([UInt(p.creationTime), UInt(p.sequenceNumber)]), UInt(p.lifetime)],
                  i + |EncodeTimestamp(p)| + HeadSize(p.lifetime))
  {
    hide Uint, ArrayHead, At, Holds, HeadSize;
    var t := EncodeTimestamp(p);
    OneByte(2);
    AtSplit(s, i, t, Uint(p.lifetime));
    AtSplit(s, i, ArrayHead(2), Uint(p.creationTime) + Uint(p.sequenceNumber));
    TwoItems(s, i + 1, p.creationTime, p.sequenceNumber);
    var xs := [UInt(p.creationTime), UInt(p.sequenceNumber)];
    ListItem(s, i, xs, i + |t|);
    UintItem(s, i + |t|, p.lifetime);
    MoreItems(s, i, [List(xs)], i + |t|, [UInt(p.lifetime)], i + |t| + HeadSize(p.lifetime));
    assert [List(xs)] + [UInt(p.lifetime)] == [List(xs), UInt(p.lifetime)];
  }

  lemma FragmentInfoItems(s: bytes, i: nat, p: PrimaryBlock)
    requires PrimaryFits(p) && At(s, i, EncodeFragmentInfo(p))
    ensures Holds(s, i, FragmentItems(p), i + |EncodeFragmentInfo(p)|)
  {
    hide Uint, At, EndpointFits, CrcFits, HeadSize, Holds;
    AtWithin(s, i, EncodeFragmentInfo(p));
    if p.fragmentOffset.Some? {
      TwoItems(s, i, p.fragmentOffset.value, p.totalDataLength.value);
    } else {
      NoItems(s, i);
    }
  }

  /** The primary block: version, flags, checksum type, destination, source, report-to, timestamp, lifetime, and the
      optional fields, in this order. */
  lemma PrimaryIsItem(s: bytes, i: nat, p: PrimaryBlock)
    requires PrimaryFits(p) && At(s, i, EncodePrimary(p))
    ensures i <= |s| && ReadItem(s, i) == Parsed(PrimaryItem(p), i + |EncodePrimary(p)|)
  {
    hide Uint, ArrayHead, EncodeIntro, EncodeEndpoints, EncodeTimestamp, EncodeFragmentInfo, EncodeCrc, At, Holds, HeadSize;
    hide EndpointFits, ReadItem, EndpointItem, BundleFlagsNumber, CrcItems, FragmentItems;
    AtWithin(s, i, EncodePrimary(p));
    var a, b, c, d := EncodeIntro(p), EncodeEndpoints(p), EncodeTimestamp(p), Uint(p.lifetime);
    var e, f := EncodeFragmentInfo(p), EncodeCrc(p.crc);
    OneByte(FieldCount(p));
    Assoc(c, d, e + f);
    var i1 := i + 1;
    var i2, i3 := i1 + |a|, i1 + |a| + |b|;
    var i4 := i3 + |c| + |d|;
    AtSplit(s, i, ArrayHead(FieldCount(p)), a + (b + (c + (d + (e + f)))));
    AtSplit(s, i1, a, b + (c + (d + (e + f))));
    AtSplit(s, i2, b, c + (d + (e + f)));
    AtSplit(s, i3, c + d, e + f);
    AtSplit(s, i4, e, f);
    IntroItems(s, i1, p);
    EndpointItems(s, i2, p);
    TimeItems(s, i3, p);
    FragmentInfoItems(s, i4, p);
    CrcIsItem(s, i4 + |e|, p.crc);
    var xa := [UInt(p.version), UInt(BundleFlagsNumber(p.flags)), UInt(CrcNumber(p.crc))];
    var xb := [EndpointItem(p.destination), EndpointItem(p.source), EndpointItem(p.reportTo)];
    var xc := [List([UInt(p.creationTime), UInt(p.sequenceNumber)]), UInt(p.lifetime)];
    var end := i4 + |e| + |f|;
    MoreItems(s, i1, xa, i2, xb, i3);
    MoreItems(s, i1, xa + xb, i3, xc, i4);
    MoreItems(s, i1, xa + xb + xc, i4, FragmentItems(p), i4 + |e|);
    MoreItems(s, i1, xa + xb + xc + FragmentItems(p), i4 + |e|, CrcItems(p.crc), end);
    var xs := xa + xb + xc + FragmentItems(p) + CrcItems(p.crc);
    assert PrimaryItem(p) == List(xs);
    CountFields(p);
    assert |xs| == 8 + |FragmentItems(p)| + |CrcItems(p.crc)|;
    ListItem(s, i, xs, end);
  }

  lemma CountFields(p: PrimaryBlock)
    requires PrimaryFits(p)
    ensures 8 + |FragmentItems(p)| + |CrcItems(p.crc)| == FieldCount(p)
  {
  }

  // ----- canonical blocks

  lemma ContentHolds(b: Block)
    requires BlockFits(b)
    ensures HasContent(b, BlockContent(b))
  {
    hide EncodeEndpoint, Uint, ArrayHead, Utf8Valid, At, ReadItem, Holds, EndpointItem;
    var s := BlockContent(b);
    WholeAt(s);
    match b {
      case PreviousNode(node) => EndpointIsItem(s, 0, node);
      case BundleAge(age) => UintItem(s, 0, age);
      case HopCount(limit, count) =>
        AtSplit(s, 0, ArrayHead(2), Uint(limit) + Uint(count));
        TwoItems(s, 1, limit, count);
        ListItem(s, 0, [UInt(limit), UInt(count)], |s|);
      case _ =>
    }
  }

  lemma BlockIntroItems(s: bytes, i: nat, b: CanonicalBlock)
    requires At(s, i, EncodeBlockIntro(b))
    ensures Holds(s, i, [UInt(BlockNumber(b.block)), UInt(b.number), UInt(BlockFlagsNumber(b.flags)),
                         UInt(CrcNumber(b.crc))], i + |EncodeBlockIntro(b)|)
  {
    hide Uint, At, BlockFlagsValue, BlockFlagsNumber, HeadSize, Holds;
    BlockFlagsAre(b.flags);
    var t, n, f, c := Uint(BlockTypeCode(b.block)), Uint(b.number), Uint(BlockFlagsValue(b.flags)), Uint(CrcCode(b.crc));
    Assoc(t, n, f + c);
    AtSplit(s, i, t + n, f + c);
    TwoItems(s, i, BlockTypeCode(b.block), b.number);
    var j := i + |t| + |n|;
    TwoItems(s, j, BlockFlagsValue(b.flags), CrcCode(b.crc));
    var xs, ys := [UInt(BlockNumber(b.block)), UInt(b.number)], [UInt(BlockFlagsNumber(b.flags)), UInt(CrcNumber(b.crc))];
    MoreItems(s, i, xs, j, ys, j + |f| + |c|);
    assert xs + ys == [UInt(BlockNumber(b.block)), UInt(b.number), UInt(BlockFlagsNumber(b.flags)), UInt(CrcNumber(b.crc))];
  }

  /** A canonical block: type, number, flags, checksum type, content, and the optional checksum, in this order. */
  lemma BlockIsItem(s: bytes, i: nat, b: CanonicalBlock)
    requires CanonicalFits(b) && At(s, i, EncodeBlock(b))
    ensures i <= |s| && ReadItem(s, i) == Parsed(BlockItem(b, BlockContent(b.block)), i + |EncodeBlock(b)|)
  {
    hide ArrayHead, EncodeBlockIntro, ByteString, BlockContent, EncodeCrc, At, HeadSize, Holds, ReadItem, CrcItems;
    hide BlockFits, BlockFlagsNumber;
    AtWithin(s, i, EncodeBlock(b));
    var a, c, d := EncodeBlockIntro(b), ByteString(BlockContent(b.block)), EncodeCrc(b.crc);
    var n: u64 := if b.crc == NoCrc then 5 else 6;
    OneByte(n);
    AtSplit(s, i, ArrayHead(n), a + (c + d));
    AtSplit(s, i + 1, a, c + d);
    var i2, i3 := i + 1 + |a|, i + 1 + |a| + |c|;
    AtSplit(s, i2, c, d);
    BlockIntroItems(s, i + 1, b);
    BlobItem(s, i2, BlockContent(b.block));
    CrcIsItem(s, i3, b.crc);
    var xa := [UInt(BlockNumber(b.block)), UInt(b.number), UInt(BlockFlagsNumber(b.flags)), UInt(CrcNumber(b.crc))];
    var xc := [Blob(BlockContent(b.block))];
    MoreItems(s, i + 1, xa, i2, xc, i3);
    MoreItems(s, i + 1, xa + xc, i3, CrcItems(b.crc), i3 + |d|);
    var xs := xa + xc + CrcItems(b.crc);
    assert BlockItem(b, BlockContent(b.block)) == List(xs);
    CountCrc(b.crc);
    assert |xs| == 5 + |CrcItems(b.crc)|;
    ListItem(s, i, xs, i3 + |d|);
  }

  lemma CountCrc(crc: Crc)
    ensures |CrcItems(crc)| == if crc == NoCrc then 0 else 1
  {
  }

  lemma {:induction false} BlocksAreItems(s: bytes, i: nat, bs: seq<CanonicalBlock>)
    requires BlocksFit(bs) && At(s, i, EncodeBlocks(bs) + [0xFF])
    ensures i <= |s| && ReadToBreak(s, i).Parsed?
    ensures var r := ReadToBreak(s, i); BlockItems(bs, r.value) && r.next == i + |EncodeBlocks(bs)| + 1
    decreases |bs|
  {
    hide EncodeBlock, ReadItem, At, CanonicalFits, BlockItem, HasContent;
    if bs == [] {
      assert EncodeBlocks(bs) + [0xFF] == [0xFF];
      AtByte(s, i, [0xFF], 0);
      AtWithin(s, i, [0xFF]);
    } else {
      var e, tail := EncodeBlock(bs[0]), EncodeBlocks(bs[1..]);
      assert BlocksFit(bs[1..]);
      Assoc(e, tail, [0xFF]);
      AtSplit(s, i, e, tail + [0xFF]);
      AtWithin(s, i, e);
      BlockStart(bs[0]);
      AtByte(s, i, e, 0);
      BlockIsItem(s, i, bs[0]);
      BlockHolds(bs[0]);
      ContentHolds(bs[0].block);
      BlocksAreItems(s, i + |e|, bs[1..]);
      var r := ReadToBreak(s, i);
      forall k | 0 <= k < |bs|
        ensures IsBlockItem(bs[k], r.value[k])
      {
        if k > 0 {
          assert bs[k] == bs[1..][k - 1] && r.value[k] == ReadToBreak(s, i + |e|).value[k - 1];
        }
      }
    }
  }

  lemma BlockHolds(b: CanonicalBlock)
    requires CanonicalFits(b)
    ensures BlockFits(b.block)
  {
  }

  /** A bundle is one array, closed by a break: the primary block, and then its blocks in order. */
  lemma BundleIsItem(b: Bundle)
    requires BundleFits(b)
    ensures var s := EncodeBundle(b); var r := ReadItem(s, 0);
            && s[0] == 0x9F && s[|s| - 1] == 0xFF && r.Parsed? && r.next == |s| && r.value.List?
            && |r.value.items| == 1 + |b.blocks| && r.value.items[0] == PrimaryItem(b.primary)
            && BlockItems(b.blocks, r.value.items[1..])
  {
    hide EncodePrimary, EncodeBlocks, ReadItem, PrimaryItem, IsBlockItem, At, PrimaryFits, CanonicalFits, ReadToBreak;
    var s := EncodeBundle(b);
    var p, bs := EncodePrimary(b.primary), EncodeBlocks(b.blocks);
    WholeAt(s);
    AtSplit(s, 0, [0x9F], p + (bs + [0xFF]));
    AtSplit(s, 1, p, bs + [0xFF]);
    PrimaryIsItem(s, 1, b.primary);
    BlocksAreItems(s, 1 + |p|, b.blocks);
    PrimaryStart(b.primary);
    AtByte(s, 1, p, 0);
    var xs := ReadToBreak(s, 1 + |p|);
    BreakCons(s, 1);
    assert ([PrimaryItem(b.primary)] + xs.value)[1..] == xs.value;
    TopLevel(s);
  }

  lemma BreakCons(s: bytes, i: nat)
    requires i < |s| && s[i] != 0xFF && ReadItem(s, i).Parsed? && ReadToBreak(s, ReadItem(s, i).next).Parsed?
    ensures var x, xs := ReadItem(s, i), ReadToBreak(s, ReadItem(s, i).next);
            ReadToBreak(s, i) == Parsed([x.value] + xs.value, xs.next)
  {
    hide ReadItem;
  }

  lemma PrimaryStart(p: PrimaryBlock)
    requires PrimaryFits(p)
    ensures |EncodePrimary(p)| > 0 && EncodePrimary(p)[0] != 0xFF
  {
    hide EncodeIntro, EncodeEndpoints, EncodeTimestamp, EncodeFragmentInfo, EncodeCrc, EndpointFits, CrcFits;
  }

  lemma TopLevel(s: bytes)
    requires |s| >= 1 && s[0] == 0x9F && ReadToBreak(s, 1).Parsed?
    ensures ReadItem(s, 0) == Parsed(List(ReadToBreak(s, 1).value), ReadToBreak(s, 1).next)
  {
    hide ReadToBreak;
    assert ReadHead(s, 0) == Indefinite(4, 1);
  }
}
