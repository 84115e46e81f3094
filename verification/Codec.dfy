/** The stateful framing codec of `tcpcl/src/v4/messages/mod.rs` working in place on a byte buffer. */
module Codec {
  import opened Bytes
  import opened Messages

  /** What one call of the decoder returns: `Ok(None)`, `Ok(Some(m))` or `Err(e)`. */
  datatype Answer = Nothing | Item(message: Message) | Error(error: CodecError)

  datatype CodecState = CodecState(headerDone: bool, current: Option<MessageType>)

  /** A decoder call as a function: the answer, the new codec state and how many bytes were consumed. */
  datatype Outcome = Answered(answer: Answer, state: CodecState, used: nat) | Panicked

  function ToAnswer(d: Decoded<Message>): Answer
    requires !d.Panics?
  {
    match d
    case NeedMore => Nothing
    case Got(m, _) => Item(m)
    case Failed(e, _) => Error(e)
  }

  function Used(d: Decoded<Message>): nat {
    if d.Got? || d.Failed? then d.used else 0
  }

  /** Specification of `Codec::decode`. */
  function DecodeCall(c: CodecState, s: bytes): (o: Outcome)
    ensures o.Answered? ==> o.used <= |s|
  {
    if !c.headerDone then
      var d := DecodeContactHeader(s);
      Answered(ToAnswer(d), if d.Got? then c.(headerDone := true) else c, Used(d))
    else if s == [] then
      Answered(Nothing, c, 0)
    else if c.current.None? && TypeOfCode(s[0]).None? then
      Answered(Error(InvalidMessageType(s[0])), c, 1)
    else
      var skip := if c.current.None? then 1 else 0;
      var t := if c.current.None? then TypeOfCode(s[0]).value else c.current.value;
      var d := DecodeBody(t, s[skip..]);
      if d.Panics? then Panicked
      else Answered(ToAnswer(d), c.(current := if d.Got? then None else Some(t)), skip + Used(d))
  }

  lemma CallUnfolds(c: CodecState, s: bytes)
    ensures !c.headerDone ==>
              var d := DecodeContactHeader(s);
              DecodeCall(c, s) == Answered(ToAnswer(d), CodecState(d.Got?, c.current), Used(d))
    ensures c.headerDone && s == [] ==> DecodeCall(c, s) == Answered(Nothing, c, 0)
    ensures c.headerDone && s != [] && c.current.None? && TypeOfCode(s[0]).None? ==>
              DecodeCall(c, s) == Answered(Error(InvalidMessageType(s[0])), c, 1)
    ensures c.headerDone && s != [] && (c.current.Some? || TypeOfCode(s[0]).Some?) ==>
              var skip, t := if c.current.None? then 1 else 0, if c.current.None? then TypeOfCode(s[0]).value else c.current.value;
              var d := DecodeBody(t, s[skip..]);
              DecodeCall(c, s)
              == if d.Panics? then Panicked
                 else Answered(ToAnswer(d), CodecState(true, if d.Got? then None else Some(t)), skip + Used(d))
  {
    hide DecodeBody, DecodeContactHeader, TypeOfCode;
  }

  lemma Behind(s: bytes, i: nat, n: nat)
    requires i + n <= |s|
    ensures s[i..][n..] == s[i + n..]
  {
  }

  /** The buffer handed to encoders and decoders; the read cursor is at the front of `data`. */
  class BytesMut {
    var data: bytes

    constructor (initial: bytes)
      ensures data == initial
    {
      data := initial;
    }

    method Advance(n: nat)
      requires n <= |data|
      modifies this
      ensures data == old(data)[n..]
    {
      data := data[n..];
    }

    method GetU8() returns (v: u8)
      requires |data| >= 1
      modifies this
      ensures v == old(data)[0] && data == old(data)[1..]
    {
      v := data[0];
      Advance(1);
    }

    method GetU16() returns (v: u16)
      requires |data| >= 2
      modifies this
      ensures v == U16(old(data), 0) && data == old(data)[2..]
    {
      v := U16(data, 0);
      Advance(2);
    }

    method GetU32() returns (v: u32)
      requires |data| >= 4
      modifies this
      ensures v == U32(old(data), 0) && data == old(data)[4..]
    {
      v := U32(data, 0);
      Advance(4);
    }

    method GetU64() returns (v: u64)
      requires |data| >= 8
      modifies this
      ensures v == U64(old(data), 0) && data == old(data)[8..]
    {
      v := U64(data, 0);
      Advance(8);
    }

    method Take(n: nat) returns (v: bytes)
      requires |data| >= n
      modifies this
      ensures v == old(data)[..n] && data == old(data)[n..]
    {
      v := data[..n];
      Advance(n);
    }

    method Put(s: bytes)
      modifies this
      ensures data == old(data) + s
    {
      data := data + s;
    }
  }

  /** The buffer now starts `used` bytes further on in what it held. */
  twostate predicate Consumed(src: BytesMut, used: nat)
    reads src
  {
    used <= |old(src.data)| && src.data == old(src.data)[used..]
  }

  /** `SessionExtension::decode` and `TransferExtension::decode` at the cursor. */
  method ReadExtension(src: BytesMut, ghost whole: bytes, ghost p: nat, transfer: bool) returns (e: Extension)
    requires p <= |whole| && src.data == whole[p..] && DecodeExtension(whole, p, transfer).Got?
    modifies src
    ensures |src.data| <= |whole| && src.data == whole[|whole| - |src.data|..]
    ensures DecodeExtension(whole, p, transfer) == Got(e, |whole| - |src.data|)
  {
    hide FromBE, Pow256;
    var flags := src.GetU8();
    var kind := src.GetU16();
    assert whole[p..][1..][0..2] == whole[p + 1..p + 3];
    var n := src.GetU16();
    assert whole[p..][1..][2..][0..2] == whole[p + 3..p + 5];
    var value := src.Take(n);
    assert value == whole[p + 5..p + 5 + n];
    assert src.data == whole[p + 5 + n..];
    e := Extension(flags % 2 == 1, kind, if transfer then Zeros(n) + value else value);
  }

  ghost function Prepend(es: seq<Extension>, d: Decoded<seq<Extension>>): Decoded<seq<Extension>> {
    if d.Got? then Got(es + d.value, d.used) else d
  }

  /** The extension loop shared by the two decoders: items until `length` bytes are used up. */
  method ReadExtensions(src: BytesMut, ghost whole: bytes, ghost start: nat, length: nat, transfer: bool)
    returns (es: seq<Extension>, error: Option<CodecError>)
    requires start + length <= |whole| && src.data == whole[start..]
    requires !DecodeExtensions(whole, start, start + length, transfer).Panics?
    modifies src
    ensures |src.data| <= |whole| && src.data == whole[|whole| - |src.data|..]
    ensures DecodeExtensions(whole, start, start + length, transfer)
         == if error.None? then Got(es, |whole| - |src.data|) else Failed(error.value, |whole| - |src.data|)
  {
    hide DecodeExtension;
    es := [];
    var target := |src.data| - length;
    ghost var d := DecodeExtensions(whole, start, start + length, transfer);
    assert d.Got? ==> es + d.value == d.value;
    while |src.data| > target
      invariant |src.data| <= |whole| - start && src.data == whole[|whole| - |src.data|..]
      invariant DecodeExtensions(whole, start, start + length, transfer)
             == Prepend(es, DecodeExtensions(whole, |whole| - |src.data|, start + length, transfer))
      decreases |src.data|
    {
      ghost var p := |whole| - |src.data|;
      var e := ReadExtension(src, whole, p, transfer);
      if e.critical {
        error := Some(if transfer then UnknownCriticalTransferExtension(e.kind)
                      else UnknownCriticalSessionExtension(e.kind));
        return;
      }
      ghost var tail := DecodeExtensions(whole, |whole| - |src.data|, start + length, transfer);
      assert tail.Got? ==> es + ([e] + tail.value) == es + [e] + tail.value;
      es := es + [e];
    }
    assert es + [] == es;
    error := None;
  }

  /** `SessInit::decode`: peeks at the lengths, then consumes. */
  method ReadSessInit(src: BytesMut) returns (r: Answer)
    requires !DecodeSessInit(src.data).Panics?
    modifies src
    ensures r == ToAnswer(DecodeSessInit(old(src.data))) && Consumed(src, Used(DecodeSessInit(old(src.data))))
  {
    hide FromBE, Pow256, Utf8Valid, DecodeExtensions;
    ghost var s := src.data;
    if |src.data| < 24 {
      return Nothing;
    }
    var n: nat := U16(src.data, 18);
    var extensionsLength := U32(src.data, 20 + n);
    if |src.data| < 24 + n + extensionsLength {
      return Nothing;
    }
    var keepaliveInterval := src.GetU16();
    var segmentMru := src.GetU64();
    assert s[2..][0..8] == s[2..10];
    var transferMru := src.GetU64();
    assert s[2..][8..][0..8] == s[10..18];
    src.Advance(2);
    assert src.data == s[20..];
    var nodeId := src.Take(n);
    assert nodeId == s[20..20 + n];
    assert src.data == s[20 + n..];
    if !Utf8Valid(nodeId) {
      return Error(NodeIdInvalid);
    }
    src.Advance(4);
    assert src.data == s[24 + n..];
    var es, error := ReadExtensions(src, s, 24 + n, extensionsLength, false);
    r := if error.Some? then Error(error.value)
         else Item(MSessInit(SessInit(keepaliveInterval, segmentMru, transferMru, nodeId, es)));
  }

  /** `XferSegment::decode`: peeks at the lengths, then consumes. */
  method ReadSegment(src: BytesMut) returns (r: Answer)
    requires !DecodeXferSegment(src.data).Panics?
    modifies src
    ensures r == ToAnswer(DecodeXferSegment(old(src.data)))
    ensures Consumed(src, Used(DecodeXferSegment(old(src.data))))
  {
    hide FromBE, Pow256, ReadXferSegment;
    if |src.data| < 10 {
      return Nothing;
    }
    var flags := FlagsOfBits(src.data[0]);
    var minSize := 17;
    if flags.start {
      minSize := 21 + U32(src.data, 9);
      if |src.data| < minSize {
        return Nothing;
      }
    }
    var dataLength := U64(src.data, minSize - 8);
    if dataLength > MAX_SEGMENT_MRU {
      return Error(SegmentTooLong);
    }
    if |src.data| < minSize + dataLength {
      return Nothing;
    }
    r := ConsumeSegment(src, flags, minSize, dataLength);
  }

  /** The consuming part of `XferSegment::decode`, with the whole frame in the buffer. */
  method ConsumeSegment(src: BytesMut, flags: SegmentFlags, minSize: nat, dataLength: nat) returns (r: Answer)
    requires minSize >= 17 && |src.data| >= minSize + dataLength
    requires flags.start ==> |src.data| >= 13 && minSize == 21 + U32(src.data, 9)
    requires !ReadXferSegment(src.data, flags, if flags.start then minSize - 21 else 0, dataLength).Panics?
    modifies src
    ensures var d := ReadXferSegment(old(src.data), flags, if flags.start then minSize - 21 else 0, dataLength);
            r == ToAnswer(d) && Consumed(src, Used(d))
  {
    hide FromBE, Pow256, DecodeExtensions;
    ghost var s := src.data;
    src.Advance(1);
    var id := src.GetU64();
    assert s[1..][0..8] == s[1..9];
    assert src.data == s[9..];
    var es: seq<Extension> := [];
    if flags.start {
      var extensionsLength := src.GetU32();
      assert s[9..][0..4] == s[9..13];
      assert src.data == s[13..];
      var error;
      es, error := ReadExtensions(src, s, 13, extensionsLength, true);
      if error.Some? {
        return Error(error.value);
      }
    }
    ghost var p := |s| - |src.data|;
    src.Advance(8);
    assert src.data == s[p + 8..];
    var data := src.Take(dataLength);
    assert data == s[p + 8..p + 8 + dataLength];
    assert src.data == s[p + 8 + dataLength..];
    r := Item(MXferSegment(XferSegment(flags, id, es, data)));
  }

  /** `XferAck::decode`. */
  method ReadAck(src: BytesMut) returns (r: Answer)
    requires !DecodeXferAck(src.data).Panics?
    modifies src
    ensures r == ToAnswer(DecodeXferAck(old(src.data))) && Consumed(src, Used(DecodeXferAck(old(src.data))))
  {
    hide FromBE, Pow256;
    ghost var s := src.data;
    if |src.data| < 9 {
      return Nothing;
    }
    var flags := src.GetU8();
    var id := src.GetU64();
    assert s[1..][0..8] == s[1..9];
    assert src.data == s[9..];
    var length := src.GetU64();
    assert s[9..][0..8] == s[9..17];
    assert src.data == s[17..];
    r := Item(MXferAck(XferAck(FlagsOfBits(flags), id, length)));
  }

  /** The decoders of fixed size: refuse, terminate, reject, and the empty keepalive. */
  method ReadShort(src: BytesMut, t: MessageType) returns (r: Answer)
    requires t.TXferRefuse? || t.TSessTerm? || t.TMsgReject? || t.TKeepalive?
    requires !DecodeBody(t, src.data).Panics?
    modifies src
    ensures r == ToAnswer(DecodeBody(t, old(src.data))) && Consumed(src, Used(DecodeBody(t, old(src.data))))
  {
    hide FromBE, Pow256, DecodeSessInit, DecodeXferSegment, DecodeXferAck;
    ghost var s := src.data;
    match t {
      case TXferRefuse =>
        if |src.data| < 5 {
          return Nothing;
        }
        var reason := src.GetU8();
        var id := src.GetU64();
        assert s[1..][0..8] == s[1..9];
        assert src.data == s[9..];
        r := Item(MXferRefuse(if reason <= 6 then reason else 0, id));
      case TSessTerm =>
        if |src.data| < 2 {
          return Nothing;
        }
        var flags := src.GetU8();
        var reason := src.GetU8();
        r := Item(MSessTerm(flags % 2 == 1, if reason <= 5 then reason else TERM_UNKNOWN));
      case TMsgReject =>
        if |src.data| < 2 {
          return Nothing;
        }
        var reason := src.GetU8();
        var header := src.GetU8();
        r := Item(MMsgReject(if reason <= 3 then reason else 0, header));
      case _ =>
        r := Item(MKeepalive);
    }
  }

  /** `ContactHeader::decode`. */
  method ReadContactHeader(src: BytesMut) returns (r: Answer)
    modifies src
    ensures r == ToAnswer(DecodeContactHeader(old(src.data))) && Consumed(src, Used(DecodeContactHeader(old(src.data))))
  {
    if |src.data| < 6 {
      return Nothing;
    }
    var magic := src.Take(4);
    if magic != DTN_MAGIC_BYTES {
      return Error(InvalidHeader);
    }
    var version := src.GetU8();
    var flags := src.GetU8();
    r := Item(MContactHeader(version, flags % 2 == 1));
  }

  /** The decoder for a message of type t. */
  method ReadBody(src: BytesMut, t: MessageType) returns (r: Answer)
    requires !DecodeBody(t, src.data).Panics?
    modifies src
    ensures r == ToAnswer(DecodeBody(t, old(src.data))) && Consumed(src, Used(DecodeBody(t, old(src.data))))
  {
    hide FromBE, Pow256, DecodeSessInit, DecodeXferSegment, DecodeXferAck, DecodeXferRefuse;
    match t {
      case TSessInit => r := ReadSessInit(src);
      case TXferSegment => r := ReadSegment(src);
      case TXferAck => r := ReadAck(src);
      case _ => r := ReadShort(src, t);
    }
  }

  class Codec {
    var contactHeaderDone: bool
    var currMessageType: Option<MessageType>

    ghost function State(): CodecState
      reads this
    {
      CodecState(contactHeaderDone, currMessageType)
    }

    constructor ()
      ensures State() == CodecState(false, None)
    {
      contactHeaderDone, currMessageType := false, None;
    }

    /** `Codec::decode` does what `DecodeCall` says, to the codec and to the buffer. */
    method Decode(src: BytesMut) returns (r: Answer)
      requires DecodeCall(State(), src.data).Answered?
      modifies this, src
      ensures |src.data| <= |old(src.data)| && src.data == old(src.data)[|old(src.data)| - |src.data|..]
      ensures DecodeCall(old(State()), old(src.data)) == Answered(r, State(), |old(src.data)| - |src.data|)
    {
      hide DecodeBody, DecodeContactHeader, TypeOfCode, DecodeCall;
      ghost var s := src.data;
      CallUnfolds(State(), s);
      if !contactHeaderDone {
        r := ReadContactHeader(src);
        contactHeaderDone := r.Item?;
        assert |s| - |src.data| == Used(DecodeContactHeader(s));
        return;
      }
      if |src.data| == 0 {
        return Nothing;
      }
      if currMessageType.None? {
        var code := src.GetU8();
        if TypeOfCode(code).None? {
          return Error(InvalidMessageType(code));
        }
        currMessageType := TypeOfCode(code);
      }
      ghost var skip, t := |s| - |src.data|, currMessageType.value;
      assert src.data == s[skip..];
      r := ReadBody(src, currMessageType.value);
      Behind(s, skip, Used(DecodeBody(t, s[skip..])));
      if r.Item? {
        currMessageType := None;
      }
    }

    /** `Codec::encode` appends the encoding of the message to the buffer. */
    method EncodeTo(m: Message, dst: BytesMut)
      requires Encodable(m)
      modifies dst
      ensures dst.data == old(dst.data) + Encode(m)
    {
      hide FromBE, Pow256, EncodeBody;
      if !m.MContactHeader? {
        dst.Put([TypeCode(TypeOf(m))]);
        Assoc(old(dst.data), [TypeCode(TypeOf(m))], EncodeBody(m));
      }
      dst.Put(EncodeBody(m));
    }
  }
}
