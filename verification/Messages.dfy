/** The TCPCLv4 messages (RFC 9174) and the byte-level encoders and decoders of `tcpcl/src/v4/messages`.

    A decoder looks at the buffered bytes and gives one of four answers.  `Panics` is the answer for an input on
    which the original indexes or reads past the end of its buffer. */
module Messages {
  import opened Bytes

  const DTN_MAGIC_BYTES: bytes := [0x64, 0x74, 0x6E, 0x21]
  const KEEPALIVE_DEFAULT_INTERVAL: u16 := 60
  const MAX_SEGMENT_MRU: u64 := 100 * 1024
  const MAX_TRANSFER_MRU: u64 := 1024 * 1024

  /** Reason codes are numbered as on the wire; 0 is "unknown". */
  type TermReason = r: u8 | r <= 5
  type RejectReason = r: u8 | r <= 3
  type RefuseReason = r: u8 | r <= 6

  const TERM_UNKNOWN: TermReason := 0
  const TERM_IDLE_TIMEOUT: TermReason := 1
  const TERM_RESOURCE_EXHAUSTION: TermReason := 5
  const REJECT_TYPE_UNKNOWN: RejectReason := 1
  const REJECT_UNEXPECTED: RejectReason := 3

  datatype SegmentFlags = SegmentFlags(start: bool, end: bool)

  /** A session or transfer extension item; the two share one layout. */
  datatype Extension = Extension(critical: bool, kind: u16, value: bytes)

  datatype SessInit = SessInit(keepaliveInterval: u16, segmentMru: u64, transferMru: u64, nodeId: bytes,
                               extensions: seq<Extension>)

  datatype XferSegment = XferSegment(flags: SegmentFlags, id: u64, extensions: seq<Extension>, data: bytes)

  datatype XferAck = XferAck(flags: SegmentFlags, id: u64, length: u64)

  datatype Message =
    | MContactHeader(version: u8, canTls: bool)
    | MSessInit(init: SessInit)
    | MSessTerm(reply: bool, reason: TermReason)
    | MKeepalive
    | MMsgReject(rejectReason: RejectReason, header: u8)
    | MXferSegment(segment: XferSegment)
    | MXferAck(ack: XferAck)
    | MXferRefuse(refuseReason: RefuseReason, refusedId: u64)

  datatype MessageType = TXferSegment | TXferAck | TXferRefuse | TKeepalive | TSessTerm | TMsgReject | TSessInit

  datatype CodecError =
    | IoError
    | InvalidMessageType(code: u8)
    | InvalidHeader
    | UnknownCriticalSessionExtension(kind: u16)
    | UnknownCriticalTransferExtension(kind: u16)
    | SegmentTooLong
    | NodeIdInvalid
    | InvalidAckValue

  /** A decoder's answer about the bytes buffered so far; `used` is how many of them it consumed. */
  datatype Decoded<+T> = NeedMore | Got(value: T, used: nat) | Failed(error: CodecError, used: nat) | Panics

  // ----- message types

  function TypeCode(t: MessageType): u8 {
    match t
    case TXferSegment => 0x01
    case TXferAck => 0x02
    case TXferRefuse => 0x03
    case TKeepalive => 0x04
    case TSessTerm => 0x05
    case TMsgReject => 0x06
    case TSessInit => 0x07
  }

  /** The type with that code, if there is one: the inverse of `TypeCode`. */
  function TypeOfCode(b: u8): (t: Option<MessageType>)
    ensures t.Some? ==> TypeCode(t.value) == b
    ensures t.None? ==> forall m :: TypeCode(m) != b
  {
    if b == 0x01 then Some(TXferSegment)
    else if b == 0x02 then Some(TXferAck)
    else if b == 0x03 then Some(TXferRefuse)
    else if b == 0x04 then Some(TKeepalive)
    else if b == 0x05 then Some(TSessTerm)
    else if b == 0x06 then Some(TMsgReject)
    else if b == 0x07 then Some(TSessInit)
    else None
  }

  /** `get_message_type`, which panics on a contact header. */
  function TypeOf(m: Message): MessageType
    requires !m.MContactHeader?
  {
    match m
    case MSessInit(_) => TSessInit
    case MSessTerm(_, _) => TSessTerm
    case MKeepalive => TKeepalive
    case MMsgReject(_, _) => TMsgReject
    case MXferSegment(_) => TXferSegment
    case MXferAck(_) => TXferAck
    case MXferRefuse(_, _) => TXferRefuse
  }

  // ----- encoders

  function FlagBits(f: SegmentFlags): u8 {
    (if f.end then 1 else 0) + (if f.start then 2 else 0)
  }

  function FlagsOfBits(b: u8): SegmentFlags {
    SegmentFlags((b / 2) % 2 == 1, b % 2 == 1)
  }

  predicate ExtensionFits(e: Extension) {
    |e.value| < 0x1_0000
  }

  function EncodeExtension(e: Extension): (s: bytes)
    requires ExtensionFits(e)
    ensures |s| == 5 + |e.value|
  {
    [if e.critical then 1 else 0] + (Be16(e.kind) + (Be16(|e.value|) + e.value))
  }

  function EncodeExtensions(es: seq<Extension>): bytes
    requires forall e :: e in es ==> ExtensionFits(e)
  {
    if es == [] then [] else EncodeExtension(es[0]) + EncodeExtensions(es[1..])
  }

  predicate ExtensionsFit(es: seq<Extension>) {
    (forall e :: e in es ==> ExtensionFits(e)) && |EncodeExtensions(es)| < 0x1_0000_0000
  }

  /** The items behind their total length. */
  function EncodeExtensionList(es: seq<Extension>): (s: bytes)
    requires ExtensionsFit(es)
    ensures |s| == 4 + |EncodeExtensions(es)|
  {
    Be32(|EncodeExtensions(es)|) + EncodeExtensions(es)
  }

  function EncodeSessInit(m: SessInit): bytes
    requires |m.nodeId| < 0x1_0000 && ExtensionsFit(m.extensions)
  {
    Be16(m.keepaliveInterval) + (Be64(m.segmentMru) + (Be64(m.transferMru)
    + (Be16(|m.nodeId|) + (m.nodeId + EncodeExtensionList(m.extensions)))))
  }

  predicate SegmentEncodable(m: XferSegment) {
    |m.data| < 0x1_0000_0000_0000_0000 && (m.flags.start ==> ExtensionsFit(m.extensions))
  }

  /** The extension list is written on START segments only. */
  function EncodeXferSegment(m: XferSegment): bytes
    requires SegmentEncodable(m)
  {
    [FlagBits(m.flags)] + (Be64(m.id)
    + ((if m.flags.start then EncodeExtensionList(m.extensions) else []) + (Be64(|m.data|) + m.data)))
  }

  function EncodeXferAck(m: XferAck): bytes {
    [FlagBits(m.flags)] + (Be64(m.id) + Be64(m.length))
  }

  /** The length conversions of the encoders that would panic all succeed. */
  predicate Encodable(m: Message) {
    match m
    case MSessInit(si) => |si.nodeId| < 0x1_0000 && ExtensionsFit(si.extensions)
    case MXferSegment(seg) => SegmentEncodable(seg)
    case _ => true
  }

  function EncodeBody(m: Message): bytes
    requires Encodable(m)
  {
    match m
    case MContactHeader(version, canTls) => DTN_MAGIC_BYTES + [version, if canTls then 1 else 0]
    case MSessInit(si) => EncodeSessInit(si)
    case MSessTerm(reply, reason) => [if reply then 1 else 0, reason]
    case MKeepalive => []
    case MMsgReject(reason, header) => [reason, header]
    case MXferSegment(seg) => EncodeXferSegment(seg)
    case MXferAck(ack) => EncodeXferAck(ack)
    case MXferRefuse(reason, id) => [reason] + Be64(id)
  }

  /** A contact header has no type byte; every other message starts with one. */
  function Encode(m: Message): bytes
    requires Encodable(m)
  {
    if m.MContactHeader? then EncodeBody(m) else [TypeCode(TypeOf(m))] + EncodeBody(m)
  }

  // ----- decoders

  function DecodeContactHeader(s: bytes): Decoded<Message> {
    if |s| < 6 then NeedMore
    else if s[0..4] != DTN_MAGIC_BYTES then Failed(InvalidHeader, 4)
    else Got(MContactHeader(s[4], s[5] % 2 == 1), 6)
  }

  /** One extension item at position p.  A transfer extension is read into a vector that already holds as many
      zeros. */
  function DecodeExtension(s: bytes, p: nat, transfer: bool): (d: Decoded<Extension>)
    ensures d.Got? ==> p < d.used <= |s|
  {
    if |s| < p + 5 || |s| < p + 5 + U16(s, p + 3) then Panics
    else
      var end := p + 5 + U16(s, p + 3);
      var value := s[p + 5..end];
      Got(Extension(s[p] % 2 == 1, U16(s, p + 1), if transfer then Zeros(|value|) + value else value), end)
  }

  /** Extension items from position p until `end` is reached; the last item may run past it. */
  function DecodeExtensions(s: bytes, p: nat, end: nat, transfer: bool): (d: Decoded<seq<Extension>>)
    requires p <= |s|
    ensures d.Got? ==> p <= d.used <= |s|
    ensures d.Failed? ==> p <= d.used <= |s|
    decreases |s| - p
  {
    if p >= end then Got([], p) else
    match DecodeExtension(s, p, transfer)
    case Got(e, q) =>
      if e.critical then
        Failed(if transfer then UnknownCriticalTransferExtension(e.kind)
               else UnknownCriticalSessionExtension(e.kind), q)
      else (
        match DecodeExtensions(s, q, end, transfer)
        case Got(es, r) => Got([e] + es, r)
        case Failed(err, r) => Failed(err, r)
        case _ => Panics)
    case _ => Panics
  }

  function DecodeSessInit(s: bytes): Decoded<Message> {
    if |s| < 24 then NeedMore else
    var n := U16(s, 18);
    if |s| < 24 + n then Panics else
    var extensionsLength := U32(s, 20 + n);
    if |s| < 24 + n + extensionsLength then NeedMore
    else if !Utf8Valid(s[20..20 + n]) then Failed(NodeIdInvalid, 20 + n)
    else
      match DecodeExtensions(s, 24 + n, 24 + n + extensionsLength, false)
      case Got(es, used) => Got(MSessInit(SessInit(U16(s, 0), U64(s, 2), U64(s, 10), s[20..20 + n], es)), used)
      case Failed(err, used) => Failed(err, used)
      case _ => Panics
  }

  function DecodeXferSegment(s: bytes): Decoded<Message> {
    if |s| < 10 then NeedMore else
    var flags := FlagsOfBits(s[0]);
    if flags.start && |s| < 13 then Panics else
    var extensionsLength := if flags.start then U32(s, 9) else 0;
    var minSize := if flags.start then 21 + extensionsLength else 17;
    if |s| < minSize then (if flags.start then NeedMore else Panics) else
    var dataLength := U64(s, minSize - 8);
    if dataLength > MAX_SEGMENT_MRU then Failed(SegmentTooLong, 0)
    else if |s| < minSize + dataLength then NeedMore
    else ReadXferSegment(s, flags, extensionsLength, dataLength)
  }

  /** The part of the segment decoder that consumes bytes, once the whole frame is there. */
  function ReadXferSegment(s: bytes, flags: SegmentFlags, extensionsLength: nat, dataLength: nat): Decoded<Message>
    requires |s| >= 17
  {
    match (if flags.start then DecodeExtensions(s, 13, 13 + extensionsLength, true) else Got([], 9))
    case Got(es, p) =>
      var end := p + 8 + dataLength;
      if |s| < end then Panics
      else Got(MXferSegment(XferSegment(flags, U64(s, 1), es, s[p + 8..end])), end)
    case Failed(err, used) => Failed(err, used)
    case _ => Panics
  }

  /** The guard asks for 9 bytes, the reads take 17. */
  function DecodeXferAck(s: bytes): Decoded<Message> {
    if |s| < 9 then NeedMore
    else if |s| < 17 then Panics
    else Got(MXferAck(XferAck(FlagsOfBits(s[0]), U64(s, 1), U64(s, 9))), 17)
  }

  /** The guard asks for 5 bytes, the reads take 9. */
  function DecodeXferRefuse(s: bytes): Decoded<Message> {
    if |s| < 5 then NeedMore
    else if |s| < 9 then Panics
    else Got(MXferRefuse(if s[0] <= 6 then s[0] else 0, U64(s, 1)), 9)
  }

  function DecodeSessTerm(s: bytes): Decoded<Message> {
    if |s| < 2 then NeedMore
    else Got(MSessTerm(s[0] % 2 == 1, if s[1] <= 5 then s[1] else TERM_UNKNOWN), 2)
  }

  function DecodeMsgReject(s: bytes): Decoded<Message> {
    if |s| < 2 then NeedMore
    else Got(MMsgReject(if s[0] <= 3 then s[0] else 0, s[1]), 2)
  }

  function DecodeBody(t: MessageType, s: bytes): (d: Decoded<Message>)
    ensures d.Got? || d.Failed? ==> d.used <= |s|
    ensures d.Got? ==> !d.value.MContactHeader? && TypeOf(d.value) == t
  {
    match t
    case TXferSegment => DecodeXferSegment(s)
    case TXferAck => DecodeXferAck(s)
    case TXferRefuse => DecodeXferRefuse(s)
    case TKeepalive => Got(MKeepalive, 0)
    case TSessTerm => DecodeSessTerm(s)
    case TMsgReject => DecodeMsgReject(s)
    case TSessInit => DecodeSessInit(s)
  }

  // ----- decoding is stable under more bytes

  /** Bytes that arrive later do not change an answer that has already been given. */
  ghost predicate Stable<T>(short: Decoded<T>, long: Decoded<T>) {
    short.Got? || short.Failed? ==> long == short
  }

  lemma DecodeExtensionStable(s: bytes, more: bytes, p: nat, transfer: bool)
    ensures Stable(DecodeExtension(s, p, transfer), DecodeExtension(s + more, p, transfer))
  {
    if DecodeExtension(s, p, transfer).Got? {
      SliceOfPrefix(s, more, p + 3, p + 5);
      SliceOfPrefix(s, more, p + 1, p + 3);
      SliceOfPrefix(s, more, p + 5, p + 5 + U16(s, p + 3));
    }
  }

  lemma {:induction false} DecodeExtensionsStable(s: bytes, more: bytes, p: nat, end: nat, transfer: bool)
    requires p <= |s|
    ensures Stable(DecodeExtensions(s, p, end, transfer), DecodeExtensions(s + more, p, end, transfer))
    decreases |s| - p
  {
    hide FromBE, ToBE, Pow256, Be16, Be32, Be64, DecodeExtension;
    if p < end && DecodeExtension(s, p, transfer).Got? {
      DecodeExtensionStable(s, more, p, transfer);
      DecodeExtensionsStable(s, more, DecodeExtension(s, p, transfer).used, end, transfer);
    }
  }

  lemma DecodeSessInitStable(s: bytes, more: bytes)
    ensures Stable(DecodeSessInit(s), DecodeSessInit(s + more))
  {
    hide FromBE, ToBE, Pow256, Be16, Be32, Be64, Utf8Valid, DecodeExtensions;
    var d := DecodeSessInit(s);
    if d.Got? || d.Failed? {
      var n: nat := U16(s, 18);
      SliceOfPrefix(s, more, 18, 20);
      SliceOfPrefix(s, more, 20 + n, 24 + n);
      SliceOfPrefix(s, more, 20, 20 + n);
      SliceOfPrefix(s, more, 0, 2);
      SliceOfPrefix(s, more, 2, 10);
      SliceOfPrefix(s, more, 10, 18);
      DecodeExtensionsStable(s, more, 24 + n, 24 + n + U32(s, 20 + n), false);
    }
  }

  lemma ReadXferSegmentStable(s: bytes, more: bytes, flags: SegmentFlags, extensionsLength: nat, dataLength: nat)
    requires |s| >= 17
    ensures Stable(ReadXferSegment(s, flags, extensionsLength, dataLength),
                   ReadXferSegment(s + more, flags, extensionsLength, dataLength))
  {
    hide FromBE, ToBE, Pow256, Be16, Be32, Be64, DecodeExtensions;
    SliceOfPrefix(s, more, 1, 9);
    DecodeExtensionsStable(s, more, 13, 13 + extensionsLength, true);
    var list := if flags.start then DecodeExtensions(s, 13, 13 + extensionsLength, true) else Got([], 9);
    if list.Got? && list.used + 8 + dataLength <= |s| {
      SliceOfPrefix(s, more, list.used + 8, list.used + 8 + dataLength);
    }
  }

  lemma DecodeXferSegmentStable(s: bytes, more: bytes)
    ensures Stable(DecodeXferSegment(s), DecodeXferSegment(s + more))
  {
    hide FromBE, ToBE, Pow256, Be16, Be32, Be64, ReadXferSegment;
    var d := DecodeXferSegment(s);
    if d.Got? || d.Failed? {
      var flags := FlagsOfBits(s[0]);
      var extensionsLength := if flags.start then U32(s, 9) else 0;
      var minSize := if flags.start then 21 + extensionsLength else 17;
      if flags.start {
        SliceOfPrefix(s, more, 9, 13);
      }
      SliceOfPrefix(s, more, minSize - 8, minSize);
      ReadXferSegmentStable(s, more, flags, extensionsLength, U64(s, minSize - 8));
    }
  }

  lemma DecodeBodyStable(t: MessageType, s: bytes, more: bytes)
    ensures Stable(DecodeBody(t, s), DecodeBody(t, s + more))
  {
    hide FromBE, ToBE, Pow256, Be16, Be32, Be64, DecodeSessInit, DecodeXferSegment;
    match t
    case TXferSegment => DecodeXferSegmentStable(s, more);
    case TSessInit => DecodeSessInitStable(s, more);
    case TXferAck =>
      if |s| >= 17 {
        SliceOfPrefix(s, more, 1, 9);
        SliceOfPrefix(s, more, 9, 17);
      }
    case TXferRefuse =>
      if |s| >= 9 {
        SliceOfPrefix(s, more, 1, 9);
      }
    case _ =>
  }

  lemma DecodeContactHeaderStable(s: bytes, more: bytes)
    ensures Stable(DecodeContactHeader(s), DecodeContactHeader(s + more))
  {
    if |s| >= 6 {
      SliceOfPrefix(s, more, 0, 4);
    }
  }

  // ----- decoding inverts encoding

  /** What a decoded extension holds: a transfer extension value comes back behind as many zeros. */
  function ExtensionAsDecoded(e: Extension, transfer: bool): Extension {
    if transfer then e.(value := Zeros(|e.value|) + e.value) else e
  }

  function AsDecoded(es: seq<Extension>, transfer: bool): (r: seq<Extension>)
    ensures |r| == |es|
    ensures forall i :: 0 <= i < |es| ==> r[i] == ExtensionAsDecoded(es[i], transfer)
  {
    if es == [] then [] else [ExtensionAsDecoded(es[0], transfer)] + AsDecoded(es[1..], transfer)
  }

  predicate NoneCritical(es: seq<Extension>) {
    forall e :: e in es ==> !e.critical
  }

  lemma DecodeEncodedExtension(e: Extension, s: bytes, p: nat, tail: bytes, transfer: bool)
    requires ExtensionFits(e) && p <= |s| && s[p..] == EncodeExtension(e) + tail
    ensures DecodeExtension(s, p, transfer) == Got(ExtensionAsDecoded(e, transfer), p + |EncodeExtension(e)|)
  {
    hide FromBE, ToBE, Pow256, Be16, Be32, Be64;
    var flag, kind, size := [if e.critical then 1 else 0], Be16(e.kind), Be16(|e.value|);
    Assoc(size, e.value, tail);
    Assoc(kind, size + e.value, tail);
    Assoc(flag, kind + (size + e.value), tail);
    Field(s, p, flag, kind + (size + (e.value + tail)));
    Field(s, p + 1, kind, size + (e.value + tail));
    Field(s, p + 3, size, e.value + tail);
    Field(s, p + 5, e.value, tail);
    assert s[p] == s[p..p + 1][0];
  }

  lemma {:induction false} DecodeEncodedExtensions(es: seq<Extension>, s: bytes, p: nat, tail: bytes, transfer: bool)
    requires (forall e :: e in es ==> ExtensionFits(e)) && NoneCritical(es)
    requires p <= |s| && s[p..] == EncodeExtensions(es) + tail
    ensures var end := p + |EncodeExtensions(es)|;
            DecodeExtensions(s, p, end, transfer) == Got(AsDecoded(es, transfer), end)
    decreases |es|
  {
    hide FromBE, ToBE, Pow256, Be16, Be32, Be64, EncodeExtension, DecodeExtension;
    if es != [] {
      var head, rest := EncodeExtension(es[0]), EncodeExtensions(es[1..]);
      Assoc(head, rest, tail);
      DecodeEncodedExtension(es[0], s, p, rest + tail, transfer);
      Field(s, p, head, rest + tail);
      DecodeEncodedExtensions(es[1..], s, p + |head|, tail, transfer);
    }
  }

  /** A critical item ends the list with an error. */
  lemma {:induction false} DecodeCriticalExtensions(es: seq<Extension>, s: bytes, p: nat, tail: bytes, transfer: bool)
    requires (forall e :: e in es ==> ExtensionFits(e)) && !NoneCritical(es)
    requires p <= |s| && s[p..] == EncodeExtensions(es) + tail
    ensures DecodeExtensions(s, p, p + |EncodeExtensions(es)|, transfer).Failed?
    decreases |es|
  {
    hide FromBE, ToBE, Pow256, Be16, Be32, Be64, EncodeExtension, DecodeExtension;
    var head, rest := EncodeExtension(es[0]), EncodeExtensions(es[1..]);
    Assoc(head, rest, tail);
    DecodeEncodedExtension(es[0], s, p, rest + tail, transfer);
    Field(s, p, head, rest + tail);
    if !es[0].critical {
      assert es == [es[0]] + es[1..];
      DecodeCriticalExtensions(es[1..], s, p + |head|, tail, transfer);
    }
  }

  /** The positions of the fields of an extension list at position p. */
  lemma ExtensionListFields(es: seq<Extension>, s: bytes, p: nat, tail: bytes)
    requires ExtensionsFit(es) && p <= |s| && s[p..] == EncodeExtensionList(es) + tail
    ensures p + 4 + |EncodeExtensions(es)| <= |s| && U32(s, p) == |EncodeExtensions(es)|
    ensures s[p + 4..] == EncodeExtensions(es) + tail && s[p + 4 + |EncodeExtensions(es)|..] == tail
  {
    hide FromBE, ToBE, Pow256, Be16, Be32, Be64, EncodeExtensions;
    var size := Be32(|EncodeExtensions(es)|);
    Assoc(size, EncodeExtensions(es), tail);
    Field(s, p, size, EncodeExtensions(es) + tail);
    Field(s, p + 4, EncodeExtensions(es), tail);
  }

  /** The positions of the fields of a SESS_INIT. */
  lemma SessInitFields(m: SessInit, s: bytes, rest: bytes)
    requires Encodable(MSessInit(m)) && s == EncodeSessInit(m) + rest
    ensures var n := |m.nodeId|;
            && |EncodeSessInit(m)| == 24 + n + |EncodeExtensions(m.extensions)|
            && U16(s, 0) == m.keepaliveInterval && U64(s, 2) == m.segmentMru && U64(s, 10) == m.transferMru
            && U16(s, 18) == n && s[20..20 + n] == m.nodeId
            && s[20 + n..] == EncodeExtensionList(m.extensions) + rest
  {
    hide FromBE, ToBE, Pow256, Be16, Be32, Be64, EncodeExtensionList;
    var list, n := EncodeExtensionList(m.extensions), Be16(|m.nodeId|);
    var ka, sm, tm := Be16(m.keepaliveInterval), Be64(m.segmentMru), Be64(m.transferMru);
    Assoc(m.nodeId, list, rest);
    Assoc(n, m.nodeId + list, rest);
    Assoc(tm, n + (m.nodeId + list), rest);
    Assoc(sm, tm + (n + (m.nodeId + list)), rest);
    Assoc(ka, sm + (tm + (n + (m.nodeId + list))), rest);
    assert s[0..] == s;
    Field(s, 0, ka, sm + (tm + (n + (m.nodeId + (list + rest)))));
    Field(s, 2, sm, tm + (n + (m.nodeId + (list + rest))));
    Field(s, 10, tm, n + (m.nodeId + (list + rest)));
    Field(s, 18, n, m.nodeId + (list + rest));
    Field(s, 20, m.nodeId, list + rest);
  }

  /** A SESS_INIT comes back if and only if its node id is UTF-8 and none of its extensions is critical. */
  lemma SessInitRoundTripIff(m: SessInit, rest: bytes)
    requires Encodable(MSessInit(m))
    ensures DecodeSessInit(EncodeSessInit(m) + rest) == Got(MSessInit(m), |EncodeSessInit(m)|)
       <==> Utf8Valid(m.nodeId) && NoneCritical(m.extensions)
  {
    hide FromBE, ToBE, Pow256, Be16, Be32, Be64, Utf8Valid, EncodeSessInit, EncodeExtensions, EncodeExtensionList;
    hide DecodeExtensions, NoneCritical;
    var s, n := EncodeSessInit(m) + rest, |m.nodeId|;
    SessInitFields(m, s, rest);
    ExtensionListFields(m.extensions, s, 20 + n, rest);
    if NoneCritical(m.extensions) {
      DecodeEncodedExtensions(m.extensions, s, 24 + n, rest, false);
      assert AsDecoded(m.extensions, false) == m.extensions;
    } else {
      DecodeCriticalExtensions(m.extensions, s, 24 + n, rest, false);
    }
  }

  /** The positions of the fields of an XFER_SEGMENT. */
  lemma XferSegmentFields(m: XferSegment, s: bytes, rest: bytes)
    requires SegmentEncodable(m) && s == EncodeXferSegment(m) + rest
    ensures var list := if m.flags.start then EncodeExtensionList(m.extensions) else [];
            var p := 9 + |list|;
            && |EncodeXferSegment(m)| == p + 8 + |m.data|
            && FlagsOfBits(s[0]) == m.flags && U64(s, 1) == m.id
            && s[9..] == list + s[p..] && U64(s, p) == |m.data| && s[p + 8..p + 8 + |m.data|] == m.data
  {
    hide FromBE, ToBE, Pow256, Be16, Be32, Be64, EncodeExtensionList;
    var list := if m.flags.start then EncodeExtensionList(m.extensions) else [];
    var flag, id, size := [FlagBits(m.flags)], Be64(m.id), Be64(|m.data|);
    Assoc(size, m.data, rest);
    Assoc(list, size + m.data, rest);
    Assoc(id, list + (size + m.data), rest);
    Assoc(flag, id + (list + (size + m.data)), rest);
    assert s[0..] == s;
    Field(s, 0, flag, id + (list + (size + (m.data + rest))));
    Field(s, 1, id, list + (size + (m.data + rest)));
    Field(s, 9, list, size + (m.data + rest));
    Field(s, 9 + |list|, size, m.data + rest);
    Field(s, 17 + |list|, m.data, rest);
    assert s[0] == s[0..1][0];
  }

  /** A segment comes back with its data, flags and id; its extension values come back zero-padded, and are not
      written at all without START. */
  lemma XferSegmentDecodesTo(m: XferSegment, rest: bytes)
    requires SegmentEncodable(m) && |m.data| <= MAX_SEGMENT_MRU && (m.flags.start ==> NoneCritical(m.extensions))
    ensures DecodeXferSegment(EncodeXferSegment(m) + rest)
         == Got(MXferSegment(m.(extensions := if m.flags.start then AsDecoded(m.extensions, true) else [])),
                |EncodeXferSegment(m)|)
  {
    hide FromBE, ToBE, Pow256, Be16, Be32, Be64, EncodeXferSegment, EncodeExtensions, DecodeExtensions;
    var s := EncodeXferSegment(m) + rest;
    XferSegmentFields(m, s, rest);
    if m.flags.start {
      var tail := s[13 + |EncodeExtensions(m.extensions)|..];
      ExtensionListFields(m.extensions, s, 9, tail);
      DecodeEncodedExtensions(m.extensions, s, 13, tail, true);
    }
  }

  /** A segment over the limit, or with a critical extension in its list, is refused. */
  lemma XferSegmentRefused(m: XferSegment, rest: bytes)
    requires SegmentEncodable(m) && (|m.data| > MAX_SEGMENT_MRU || (m.flags.start && !NoneCritical(m.extensions)))
    ensures DecodeXferSegment(EncodeXferSegment(m) + rest).Failed?
  {
    hide FromBE, ToBE, Pow256, Be16, Be32, Be64, EncodeXferSegment, EncodeExtensions, DecodeExtensions;
    var s := EncodeXferSegment(m) + rest;
    XferSegmentFields(m, s, rest);
    if m.flags.start {
      var tail := s[13 + |EncodeExtensions(m.extensions)|..];
      ExtensionListFields(m.extensions, s, 9, tail);
      if !NoneCritical(m.extensions) {
        DecodeCriticalExtensions(m.extensions, s, 13, tail, true);
      }
    }
  }

  /** An extension that comes back from a segment: not critical, and without a value. */
  predicate PlainExtension(e: Extension) {
    !e.critical && e.value == []
  }

  /** Of all segments exactly those survive that are within the limit, and whose extensions are plain, or absent
      without START. */
  lemma XferSegmentRoundTripIff(m: XferSegment, rest: bytes)
    requires SegmentEncodable(m)
    ensures DecodeXferSegment(EncodeXferSegment(m) + rest) == Got(MXferSegment(m), |EncodeXferSegment(m)|)
       <==> |m.data| <= MAX_SEGMENT_MRU
            && (if m.flags.start then forall i :: 0 <= i < |m.extensions| ==> PlainExtension(m.extensions[i])
                else m.extensions == [])
  {
    hide DecodeXferSegment, EncodeXferSegment;
    if |m.data| > MAX_SEGMENT_MRU || (m.flags.start && !NoneCritical(m.extensions)) {
      XferSegmentRefused(m, rest);
      if m.flags.start && !NoneCritical(m.extensions) {
        var i :| 0 <= i < |m.extensions| && m.extensions[i].critical;
        assert !PlainExtension(m.extensions[i]);
      }
    } else {
      XferSegmentDecodesTo(m, rest);
      if m.flags.start {
        var es := AsDecoded(m.extensions, true);
        if forall i :: 0 <= i < |m.extensions| ==> PlainExtension(m.extensions[i]) {
          assert forall i :: 0 <= i < |es| ==> es[i] == m.extensions[i].(value := Zeros(0) + []);
          assert es == m.extensions;
        } else {
          var i :| 0 <= i < |m.extensions| && !PlainExtension(m.extensions[i]);
          assert m.extensions[i] in m.extensions;
          assert |es[i].value| == 2 * |m.extensions[i].value|;
        }
      }
    }
  }

  /** A message that comes back unchanged from a conforming exchange. */
  predicate Sendable(m: Message)
    ensures Sendable(m) ==> Encodable(m)
  {
    && Encodable(m)
    && match m
       case MSessInit(si) => Utf8Valid(si.nodeId) && NoneCritical(si.extensions)
       case MXferSegment(seg) => |seg.data| <= MAX_SEGMENT_MRU && seg.extensions == []
       case _ => true
  }

  lemma SegmentRoundTrip(m: XferSegment, rest: bytes)
    requires Sendable(MXferSegment(m))
    ensures DecodeXferSegment(EncodeXferSegment(m) + rest) == Got(MXferSegment(m), |EncodeXferSegment(m)|)
  {
    hide DecodeXferSegment, EncodeXferSegment;
    XferSegmentRoundTripIff(m, rest);
  }

  lemma XferAckRoundTrip(ack: XferAck, rest: bytes)
    ensures DecodeXferAck(EncodeXferAck(ack) + rest) == Got(MXferAck(ack), |EncodeXferAck(ack)|)
  {
    hide FromBE, ToBE, Pow256, Be16, Be32, Be64;
    var s := EncodeXferAck(ack) + rest;
    var flag, id, length := [FlagBits(ack.flags)], Be64(ack.id), Be64(ack.length);
    Assoc(id, length, rest);
    Assoc(flag, id + length, rest);
    assert s[0..] == s;
    Field(s, 0, flag, id + (length + rest));
    Field(s, 1, id, length + rest);
    Field(s, 9, length, rest);
    assert s[0] == s[0..1][0];
  }

  lemma XferRefuseRoundTrip(reason: RefuseReason, id: u64, rest: bytes)
    ensures DecodeXferRefuse([reason] + Be64(id) + rest) == Got(MXferRefuse(reason, id), 9)
  {
    var s := [reason] + Be64(id) + rest;
    assert s[1..9] == Be64(id);
  }

  /** Decoding the body of any sendable message, whatever follows it, gives that message and uses just its bytes. */
  lemma BodyRoundTrip(m: Message, rest: bytes)
    requires Sendable(m) && !m.MContactHeader?
    ensures DecodeBody(TypeOf(m), EncodeBody(m) + rest) == Got(m, |EncodeBody(m)|)
  {
    hide DecodeSessInit, DecodeXferSegment, DecodeXferAck, DecodeXferRefuse;
    match m {
      case MSessInit(si) => SessInitRoundTripIff(si, rest);
      case MXferSegment(seg) => SegmentRoundTrip(seg, rest);
      case MXferAck(ack) => XferAckRoundTrip(ack, rest);
      case MXferRefuse(reason, id) => XferRefuseRoundTrip(reason, id, rest);
      case _ =>
    }
  }

  lemma ContactHeaderRoundTrip(m: Message, rest: bytes)
    requires m.MContactHeader?
    ensures DecodeContactHeader(Encode(m) + rest) == Got(m, |Encode(m)|)
  {
    var s := Encode(m) + rest;
    assert s[0..4] == DTN_MAGIC_BYTES;
  }

  // ----- incomplete messages

  /** The numbers of body bytes on which the decoder of this message reads past the end of what it has. */
  predicate PanicZone(m: Message, k: nat) {
    match m
    case MSessInit(si) => 24 <= k < 24 + |si.nodeId|
    case MXferSegment(seg) => if seg.flags.start then 10 <= k < 13 else 10 <= k < 17
    case MXferAck(_) => 9 <= k < 17
    case MXferRefuse(_, _) => 5 <= k < 9
    case _ => false
  }

  lemma IncompleteSessInit(si: SessInit, k: nat)
    requires Sendable(MSessInit(si)) && k < |EncodeSessInit(si)|
    ensures DecodeSessInit(EncodeSessInit(si)[..k]) == if PanicZone(MSessInit(si), k) then Panics else NeedMore
  {
    hide FromBE, ToBE, Pow256, Be16, Be32, Be64, Utf8Valid, EncodeSessInit, EncodeExtensions, DecodeExtensions;
    var whole := EncodeSessInit(si);
    assert whole + [] == whole && whole == whole[..k] + whole[k..];
    SessInitFields(si, whole, []);
    ExtensionListFields(si.extensions, whole, 20 + |si.nodeId|, []);
    if k >= 24 {
      SliceOfPrefix(whole[..k], whole[k..], 18, 20);
      if k >= 24 + |si.nodeId| {
        SliceOfPrefix(whole[..k], whole[k..], 20 + |si.nodeId|, 24 + |si.nodeId|);
      }
    }
  }

  lemma IncompleteXferSegment(seg: XferSegment, k: nat)
    requires Sendable(MXferSegment(seg)) && k < |EncodeXferSegment(seg)|
    ensures DecodeXferSegment(EncodeXferSegment(seg)[..k])
         == if PanicZone(MXferSegment(seg), k) then Panics else NeedMore
  {
    hide FromBE, ToBE, Pow256, Be16, Be32, Be64, EncodeXferSegment, DecodeExtensions;
    var whole := EncodeXferSegment(seg);
    assert whole + [] == whole && whole == whole[..k] + whole[k..];
    XferSegmentFields(seg, whole, []);
    var p := if seg.flags.start then 13 else 9;
    if seg.flags.start && k >= 13 {
      ExtensionListFields([], whole, 9, whole[13..]);
      SliceOfPrefix(whole[..k], whole[k..], 9, 13);
    }
    if k >= p + 8 {
      SliceOfPrefix(whole[..k], whole[k..], p, p + 8);
    }
  }

  /** With only the first k bytes of a body the decoder asks for more, except in the panic zone, and only there. */
  lemma IncompleteBody(m: Message, k: nat)
    requires Sendable(m) && !m.MContactHeader? && k < |EncodeBody(m)|
    ensures DecodeBody(TypeOf(m), EncodeBody(m)[..k]) == if PanicZone(m, k) then Panics else NeedMore
  {
    hide DecodeSessInit, DecodeXferSegment, FromBE, ToBE, Pow256, Be16, Be32, Be64;
    match m
    case MSessInit(si) => IncompleteSessInit(si, k);
    case MXferSegment(seg) => IncompleteXferSegment(seg, k);
    case _ =>
  }
}
