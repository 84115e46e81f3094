/** The bytes of every message, field by field and in numbers (sections 4 to 6 of RFC 9174), told without the encoders
    and decoders. */
module WireFormat {
  import opened Bytes
  import opened Messages
  import opened Codec

  // ----- numbers on the wire

  function Number2(s: bytes, i: nat): nat
    requires i + 2 <= |s|
  {
    0x100 * (s[i] as nat) + s[i + 1]
  }

  function Number4(s: bytes, i: nat): nat
    requires i + 4 <= |s|
  {
    0x1_0000 * Number2(s, i) + Number2(s, i + 2)
  }

  function Number8(s: bytes, i: nat): nat
    requires i + 8 <= |s|
  {
    0x1_0000_0000 * Number4(s, i) + Number4(s, i + 4)
  }

  lemma OneMoreByte(s: bytes, i: nat, n: nat)
    requires i + n + 1 <= |s|
    ensures FromBE(s[i..i + n + 1]) == 0x100 * FromBE(s[i..i + n]) + s[i + n]
  {
    var t := s[i..i + n + 1];
    assert t[..n] == s[i..i + n] && t[n] == s[i + n];
  }

  lemma TwoBytes(s: bytes, i: nat)
    requires i + 2 <= |s|
    ensures FromBE(s[i..i + 2]) == Number2(s, i)
  {
    hide Pow256;
    assert s[i..i + 0] == [];
    OneMoreByte(s, i, 0);
    OneMoreByte(s, i, 1);
  }

  lemma FourBytes(s: bytes, i: nat)
    requires i + 4 <= |s|
    ensures FromBE(s[i..i + 4]) == Number4(s, i)
  {
    hide FromBE;
    TwoBytes(s, i);
    OneMoreByte(s, i, 2);
    OneMoreByte(s, i, 3);
  }

  lemma EightBytes(s: bytes, i: nat)
    requires i + 8 <= |s|
    ensures FromBE(s[i..i + 8]) == Number8(s, i)
  {
    hide FromBE;
    FourBytes(s, i);
    OneMoreByte(s, i, 4);
    OneMoreByte(s, i, 5);
    OneMoreByte(s, i, 6);
    OneMoreByte(s, i, 7);
  }

  /** The readers are big-endian. */
  lemma NumbersAreBigEndian(s: bytes, i: nat)
    ensures i + 2 <= |s| ==> U16(s, i) == Number2(s, i)
    ensures i + 4 <= |s| ==> U32(s, i) == Number4(s, i)
    ensures i + 8 <= |s| ==> U64(s, i) == Number8(s, i)
  {
    hide FromBE, Number2, Number4, Number8;
    if i + 2 <= |s| {
      TwoBytes(s, i);
    }
    if i + 4 <= |s| {
      FourBytes(s, i);
    }
    if i + 8 <= |s| {
      EightBytes(s, i);
    }
  }

  // ----- the layout of each message

  function Flag(b: bool, weight: u8): nat {
    if b then weight else 0
  }

  /** The items of an extension list lie from p on and end at `end`. */
  predicate ItemsAt(es: seq<Extension>, s: bytes, p: nat, end: nat)
    decreases |es|
  {
    if es == [] then p == end
    else
      var e := es[0];
      && p + 5 + |e.value| <= |s| && s[p] == Flag(e.critical, 1)
      && Number2(s, p + 1) == e.kind && Number2(s, p + 3) == |e.value| && s[p + 5..p + 5 + |e.value|] == e.value
      && ItemsAt(es[1..], s, p + 5 + |e.value|, end)
  }

  /** The extension list at p, its length in front, ends at `end`. */
  predicate ListAt(es: seq<Extension>, s: bytes, p: nat, end: nat) {
    p + 4 <= end <= |s| && Number4(s, p) == end - p - 4 && ItemsAt(es, s, p + 4, end)
  }

  /** The data at p, its length in front, ends the message. */
  predicate DataAt(data: bytes, s: bytes, p: nat) {
    |s| == p + 8 + |data| && Number8(s, p) == |data| && s[p + 8..] == data
  }

  /** Every byte of a message, by its place. */
  predicate Layout(m: Message, s: bytes) {
    match m
    case MContactHeader(version, canTls) =>
      |s| == 6 && s[0] == 0x64 && s[1] == 0x74 && s[2] == 0x6E && s[3] == 0x21 && s[4] == version
      && s[5] == Flag(canTls, 1)
    case MXferSegment(seg) =>
      && |s| >= 10 && s[0] == 1 && s[1] == Flag(seg.flags.end, 1) + Flag(seg.flags.start, 2) && Number8(s, 2) == seg.id
      && if seg.flags.start then
           |s| >= 22 + |seg.data|
           && ListAt(seg.extensions, s, 10, |s| - 8 - |seg.data|) && DataAt(seg.data, s, |s| - 8 - |seg.data|)
         else DataAt(seg.data, s, 10)
    case MXferAck(ack) =>
      |s| == 18 && s[0] == 2 && s[1] == Flag(ack.flags.end, 1) + Flag(ack.flags.start, 2)
      && Number8(s, 2) == ack.id && Number8(s, 10) == ack.length
    case MXferRefuse(reason, id) => |s| == 10 && s[0] == 3 && s[1] == reason && Number8(s, 2) == id
    case MKeepalive => |s| == 1 && s[0] == 4
    case MSessTerm(reply, reason) => |s| == 3 && s[0] == 5 && s[1] == Flag(reply, 1) && s[2] == reason
    case MMsgReject(reason, header) => |s| == 3 && s[0] == 6 && s[1] == reason && s[2] == header
    case MSessInit(si) =>
      && |s| >= 25 + |si.nodeId| && s[0] == 7
      && Number2(s, 1) == si.keepaliveInterval && Number8(s, 3) == si.segmentMru && Number8(s, 11) == si.transferMru
      && Number2(s, 19) == |si.nodeId| && s[21..21 + |si.nodeId|] == si.nodeId
      && ListAt(si.extensions, s, 21 + |si.nodeId|, |s|)
  }

  lemma ItemLayout(e: Extension, s: bytes, p: nat, tail: bytes)
    requires ExtensionFits(e) && p <= |s| && s[p..] == EncodeExtension(e) + tail
    ensures p + 5 + |e.value| <= |s| && s[p] == Flag(e.critical, 1)
    ensures Number2(s, p + 1) == e.kind && Number2(s, p + 3) == |e.value| && s[p + 5..p + 5 + |e.value|] == e.value
    ensures s[p + 5 + |e.value|..] == tail
  {
    hide FromBE, ToBE, Pow256, Be16;
    var flag, kind, size := [if e.critical then 1 else 0], Be16(e.kind), Be16(|e.value|);
    Assoc(size, e.value, tail);
    Assoc(kind, size + e.value, tail);
    Assoc(flag, kind + (size + e.value), tail);
    Field(s, p, flag, kind + (size + (e.value + tail)));
    Field(s, p + 1, kind, size + (e.value + tail));
    Field(s, p + 3, size, e.value + tail);
    Field(s, p + 5, e.value, tail);
    assert s[p] == s[p..p + 1][0];
    NumbersAreBigEndian(s, p + 1);
    NumbersAreBigEndian(s, p + 3);
  }

  lemma {:induction false} ItemsLayout(es: seq<Extension>, s: bytes, p: nat, tail: bytes)
    requires (forall e :: e in es ==> ExtensionFits(e)) && p <= |s| && s[p..] == EncodeExtensions(es) + tail
    ensures ItemsAt(es, s, p, p + |EncodeExtensions(es)|)
    decreases |es|
  {
    hide FromBE, Pow256, EncodeExtension;
    if es != [] {
      var head, rest := EncodeExtension(es[0]), EncodeExtensions(es[1..]);
      Assoc(head, rest, tail);
      ItemLayout(es[0], s, p, rest + tail);
      ItemsLayout(es[1..], s, p + |head|, tail);
    }
  }

  lemma ListLayout(es: seq<Extension>, s: bytes, p: nat, tail: bytes)
    requires ExtensionsFit(es) && p <= |s| && s[p..] == EncodeExtensionList(es) + tail
    ensures ListAt(es, s, p, |s| - |tail|) && s[|s| - |tail|..] == tail
  {
    hide FromBE, ToBE, Pow256, Be32, EncodeExtensions;
    ExtensionListFields(es, s, p, tail);
    NumbersAreBigEndian(s, p);
    ItemsLayout(es, s, p + 4, tail);
    assert |s| - |tail| == p + 4 + |EncodeExtensions(es)|;
  }

  lemma DataLayout(data: bytes, s: bytes, p: nat)
    requires |data| < 0x1_0000_0000_0000_0000 && p <= |s| && s[p..] == Be64(|data|) + data
    ensures DataAt(data, s, p)
  {
    hide FromBE, ToBE, Pow256, Be64;
    Field(s, p, Be64(|data|), data);
    NumbersAreBigEndian(s, p);
  }

  lemma SegmentBytes(seg: XferSegment)
    requires SegmentEncodable(seg)
    ensures Encode(MXferSegment(seg))
            == [1, FlagBits(seg.flags)]
               + (Be64(seg.id) + ((if seg.flags.start then EncodeExtensionList(seg.extensions) else [])
                                  + (Be64(|seg.data|) + seg.data)))
  {
    hide FromBE, ToBE, Pow256, Be64, EncodeExtensionList;
  }

  lemma SegmentHead(seg: XferSegment)
    requires SegmentEncodable(seg)
    ensures var s := Encode(MXferSegment(seg));
            && |s| >= 10 && s[0] == 1 && s[1] == FlagBits(seg.flags) && Number8(s, 2) == seg.id
            && s[10..] == (if seg.flags.start then EncodeExtensionList(seg.extensions) else [])
                          + (Be64(|seg.data|) + seg.data)
  {
    hide FromBE, ToBE, Pow256, Be64, EncodeExtensionList, Number8, Encode, FlagBits;
    var s := Encode(MXferSegment(seg));
    var head, id, data := [1, FlagBits(seg.flags)], Be64(seg.id), Be64(|seg.data|) + seg.data;
    var list := if seg.flags.start then EncodeExtensionList(seg.extensions) else [];
    SegmentBytes(seg);
    assert s[0..] == s;
    Field(s, 0, head, id + (list + data));
    Field(s, 2, id, list + data);
    assert s[..2] == head && s[0] == head[0] && s[1] == head[1];
    NumbersAreBigEndian(s, 2);
  }

  lemma SegmentLayout(seg: XferSegment)
    requires SegmentEncodable(seg)
    ensures Layout(MXferSegment(seg), Encode(MXferSegment(seg)))
  {
    hide FromBE, ToBE, Pow256, Be64, EncodeExtensionList, ListAt, DataAt, Number8, Encode;
    var s, data := Encode(MXferSegment(seg)), Be64(|seg.data|) + seg.data;
    SegmentHead(seg);
    if seg.flags.start {
      ListLayout(seg.extensions, s, 10, data);
      DataLayout(seg.data, s, |s| - |data|);
    } else {
      assert [] + data == data;
      DataLayout(seg.data, s, 10);
    }
  }

  lemma SessInitLayout(si: SessInit)
    requires Encodable(MSessInit(si))
    ensures Layout(MSessInit(si), Encode(MSessInit(si)))
  {
    hide FromBE, ToBE, Pow256, Be16, Be64, EncodeExtensionList, ListAt, Number8, Number2;
    var s, n := Encode(MSessInit(si)), |si.nodeId|;
    var list := EncodeExtensionList(si.extensions);
    var ka, sm, tm, len := Be16(si.keepaliveInterval), Be64(si.segmentMru), Be64(si.transferMru), Be16(n);
    assert s == [7] + (ka + (sm + (tm + (len + (si.nodeId + list)))));
    assert s[0] == 7 && s[0..] == s;
    Field(s, 0, [7], ka + (sm + (tm + (len + (si.nodeId + list)))));
    Field(s, 1, ka, sm + (tm + (len + (si.nodeId + list))));
    Field(s, 3, sm, tm + (len + (si.nodeId + list)));
    Field(s, 11, tm, len + (si.nodeId + list));
    Field(s, 19, len, si.nodeId + list);
    Field(s, 21, si.nodeId, list);
    NumbersAreBigEndian(s, 1);
    NumbersAreBigEndian(s, 3);
    NumbersAreBigEndian(s, 11);
    NumbersAreBigEndian(s, 19);
    assert list + [] == list;
    ListLayout(si.extensions, s, 21 + n, []);
  }

  lemma AckLayout(ack: XferAck)
    ensures Layout(MXferAck(ack), Encode(MXferAck(ack)))
  {
    hide FromBE, ToBE, Pow256, Be64, Number8;
    var s := Encode(MXferAck(ack));
    var head, id, length := [2, FlagBits(ack.flags)], Be64(ack.id), Be64(ack.length);
    assert s == head + (id + length) && s[0..] == s;
    Field(s, 0, head, id + length);
    Field(s, 2, id, length);
    assert length + [] == length;
    Field(s, 10, length, []);
    assert s[..2] == head;
    assert s[0] == head[0] && s[1] == head[1];
    NumbersAreBigEndian(s, 2);
    NumbersAreBigEndian(s, 10);
  }

  /** The encoding of every message lies in its bytes as the layout says. */
  lemma EncodingLayout(m: Message)
    requires Encodable(m)
    ensures Layout(m, Encode(m))
  {
    hide FromBE, ToBE, Pow256, Be64, Number8, EncodeSessInit, EncodeXferSegment, EncodeXferAck, ListAt, DataAt;
    match m {
      case MXferSegment(seg) => SegmentLayout(seg);
      case MXferAck(ack) => AckLayout(ack);
      case MSessInit(si) => SessInitLayout(si);
      case MXferRefuse(reason, id) =>
        var s := Encode(m);
        assert s == [3, reason] + Be64(id);
        assert s[2..10] == Be64(id);
        NumbersAreBigEndian(s, 2);
      case _ =>
    }
  }

  // ----- reading by number

  const READY := CodecState(true, None)

  function FlagsOf(b: u8): SegmentFlags {
    SegmentFlags(b % 4 >= 2, b % 2 == 1)
  }

  lemma FlagBitsRead(b: u8)
    ensures FlagsOfBits(b) == FlagsOf(b)
  {
  }

  /** A buffer that starts with a message of fixed size is read as that message, by its code and its places. */
  lemma ReadsByCode(s: bytes)
    requires s != []
    ensures s[0] == 2 && |s| >= 18 ==>
              DecodeCall(READY, s) == Answered(Item(MXferAck(XferAck(FlagsOf(s[1]), Number8(s, 2), Number8(s, 10)))), READY, 18)
    ensures s[0] == 3 && |s| >= 10 ==>
              DecodeCall(READY, s) == Answered(Item(MXferRefuse(if s[1] <= 6 then s[1] else 0, Number8(s, 2))), READY, 10)
    ensures s[0] == 4 ==> DecodeCall(READY, s) == Answered(Item(MKeepalive), READY, 1)
    ensures s[0] == 5 && |s| >= 3 ==>
              DecodeCall(READY, s) == Answered(Item(MSessTerm(s[1] % 2 == 1, if s[2] <= 5 then s[2] else 0)), READY, 3)
    ensures s[0] == 6 && |s| >= 3 ==>
              DecodeCall(READY, s) == Answered(Item(MMsgReject(if s[1] <= 3 then s[1] else 0, s[2])), READY, 3)
    ensures s[0] == 0 || s[0] > 7 ==> DecodeCall(READY, s) == Answered(Error(InvalidMessageType(s[0])), READY, 1)
  {
    hide FromBE, Pow256, Number8, DecodeSessInit, DecodeXferSegment;
    var body := s[1..];
    if s[0] == 2 && |s| >= 18 {
      assert body[1..9] == s[2..10] && body[9..17] == s[10..18];
      NumbersAreBigEndian(s, 2);
      NumbersAreBigEndian(s, 10);
      FlagBitsRead(s[1]);
    } else if s[0] == 3 && |s| >= 10 {
      assert body[1..9] == s[2..10];
      NumbersAreBigEndian(s, 2);
    }
  }

  /** Whatever else a buffer holds, its first byte decides which message a call can give. */
  lemma FirstByteDecides(s: bytes)
    requires s != [] && DecodeCall(READY, s).Answered? && DecodeCall(READY, s).answer.Item?
    ensures var m := DecodeCall(READY, s).answer.message;
            && (m.MXferSegment? <==> s[0] == 1) && (m.MXferAck? <==> s[0] == 2) && (m.MXferRefuse? <==> s[0] == 3)
            && (m.MKeepalive? <==> s[0] == 4) && (m.MSessTerm? <==> s[0] == 5) && (m.MMsgReject? <==> s[0] == 6)
            && (m.MSessInit? <==> s[0] == 7)
  {
    hide FromBE, Pow256, DecodeSessInit, DecodeXferSegment, DecodeXferAck, DecodeXferRefuse;
    var m := DecodeCall(READY, s).answer.message;
    assert TypeOf(m) == TypeOfCode(s[0]).value;
  }

  /** A segment without START within the size limit, field by field. */
  lemma ReadsSegment(s: bytes)
    requires |s| >= 18 && s[0] == 1 && !FlagsOf(s[1]).start
    requires Number8(s, 10) <= 102400 && |s| >= 18 + Number8(s, 10)
    ensures var end := 18 + Number8(s, 10);
            DecodeCall(READY, s)
            == Answered(Item(MXferSegment(XferSegment(FlagsOf(s[1]), Number8(s, 2), [], s[18..end]))), READY, end)
  {
    hide FromBE, Pow256, Number8, DecodeExtensions;
    var body, n := s[1..], Number8(s, 10);
    FlagBitsRead(s[1]);
    NumbersAreBigEndian(s, 2);
    NumbersAreBigEndian(s, 10);
    assert body[1..9] == s[2..10] && body[9..17] == s[10..18] && body[17..17 + n] == s[18..18 + n];
  }

  /** The first six bytes of a connection. */
  lemma ReadsContactHeader(s: bytes)
    requires |s| >= 6
    ensures DecodeCall(CodecState(false, None), s)
            == if s[..4] == [0x64, 0x74, 0x6E, 0x21]
               then Answered(Item(MContactHeader(s[4], s[5] % 2 == 1)), READY, 6)
               else Answered(Error(InvalidHeader), CodecState(false, None), 4)
  {
    assert s[0..4] == s[..4];
  }
}
