/** The TCPCLv4 session state machine of `tcpcl/src/v4/statemachine.rs`.

    Every operation appears twice: as a function on the machine's value, which the protocol proofs use, and as a
    method of the class, which updates the fields in place and is proved to do what the function says.  `None` and
    the `...Panics` answers stand for the original's panics; a method demands that its function does not panic. */
module StateMachine {
  import opened Bytes
  import opened Messages

  datatype Transfer = Transfer(id: u64, data: bytes)

  datatype TransferTracker = TransferTracker(transfer: Transfer, pos: nat, posAcked: nat)

  datatype States =
    | ActiveSendContactHeader
    | PassiveWaitContactHeader
    | ActiveWaitContactHeader
    | PassiveSendContactHeader
    | ActiveSendSessInit
    | PassiveWaitSessInit
    | ActiveWaitSessInit
    | PassiveSendSessInit
    | SessionEstablished
    | SendXferAck(ack: XferAck)
    | SendXferSegments(tracker: TransferTracker)
    | SendXferSegmentsAndAck(tracker: TransferTracker, ack: XferAck)
    | SendKeepalive(inner: States)
    | SendSessTerm(reason: Option<TermReason>)
    | WaitSessTerm
    | SendMsgReject(rejectReason: RejectReason, messageType: u8)
    | ConnectionClose
    | ShouldNeverExist

  datatype Machine = Machine(
    state: States, canTls: bool, myNodeId: bytes, lastUsedTransferId: u64,
    myContactHeader: Option<Message>, peerContactHeader: Option<Message>,
    mySessInit: Option<SessInit>, peerSessInit: Option<SessInit>, terminating: bool)

  /** What the framed reader hands over: a message, or the error that ended decoding. */
  datatype Incoming = Arrived(message: Message) | Garbled(error: CodecError)

  datatype SessionError =
    | MessageTypeInappropriate(t: MessageType)
    | RemoteRejected
    | DoesNotSpeakTcpcl
    | TlsNameMismatch
    | MessageError(error: CodecError)

  datatype DecodeResult = Accepted(message: Message) | Refused(error: SessionError)

  datatype DecodeOutcome = Decodes(machine: Machine, result: DecodeResult) | DecodePanics

  /** `SendIdle`: the call returned early without sending. */
  datatype SendOutcome = Sends(message: Message, machine: Machine) | SendIdle | SendPanics

  datatype Interest = Interest(readable: bool, writable: bool)

  function NewMachine(active: bool, nodeId: bytes, canTls: bool): Machine {
    Machine(if active then ActiveSendContactHeader else PassiveWaitContactHeader, canTls, nodeId, 0,
            None, None, None, None, false)
  }

  /** `SessInit::new`: the limits every endpoint of this implementation announces. */
  function OwnSessInit(nodeId: bytes): SessInit {
    SessInit(KEEPALIVE_DEFAULT_INTERVAL, MAX_SEGMENT_MRU, MAX_TRANSFER_MRU, nodeId, [])
  }

  // ----- sending

  function SegmentEnd(tt: TransferTracker, mru: u64): nat {
    if tt.pos + mru <= |tt.transfer.data| then tt.pos + mru else |tt.transfer.data|
  }

  /** The segment sent next: START exactly at position 0, END exactly when it reaches the end of the data. */
  function NextSegment(tt: TransferTracker, mru: u64): XferSegment
    requires tt.pos <= |tt.transfer.data|
  {
    var end := SegmentEnd(tt, mru);
    XferSegment(SegmentFlags(tt.pos == 0, end == |tt.transfer.data|), tt.transfer.id, [], tt.transfer.data[tt.pos..end])
  }

  /** `send_complete`. */
  function SendComplete(m: Machine): Option<Machine> {
    match m.state
    case ActiveSendContactHeader => Some(m.(state := ActiveWaitContactHeader))
    case PassiveSendContactHeader => Some(m.(state := PassiveWaitSessInit))
    case ActiveSendSessInit => Some(m.(state := ActiveWaitSessInit))
    case PassiveSendSessInit => Some(m.(state := SessionEstablished))
    case SendXferAck(_) => Some(m.(state := SessionEstablished))
    case SendXferSegmentsAndAck(tt, _) => Some(m.(state := SendXferSegments(tt)))
    case SendXferSegments(tt) =>
      if tt.pos == |tt.transfer.data| == tt.posAcked then Some(m.(state := SessionEstablished)) else Some(m)
    case SendKeepalive(s) => Some(m.(state := s))
    case SendSessTerm(_) =>
      if m.terminating then Some(m.(state := ConnectionClose))
      else Some(m.(state := WaitSessTerm, terminating := true))
    case SendMsgReject(_, _) => Some(m.(state := ConnectionClose, terminating := true))
    case _ => None
  }

  function Completed(message: Message, m: Machine): SendOutcome {
    match SendComplete(m)
    case Some(m') => Sends(message, m')
    case None => SendPanics
  }

  /** A segment has been handed to the writer: the position moves on, before the flush. */
  function FeedSegment(m: Machine): SendOutcome
    requires m.state.SendXferSegments?
  {
    var tt := m.state.tracker;
    if m.peerSessInit.None? then SendPanics
    else
      var mru := m.peerSessInit.value.segmentMru;
      if tt.pos + mru >= 0x1_0000_0000_0000_0000 then SendPanics
      else if tt.pos == |tt.transfer.data| then SendIdle
      else if tt.pos > |tt.transfer.data| then SendPanics
      else Sends(MXferSegment(NextSegment(tt, mru)), m.(state := SendXferSegments(tt.(pos := SegmentEnd(tt, mru)))))
  }

  /** `send_message`. */
  function SendMessage(m: Machine): SendOutcome {
    match m.state
    case ActiveSendContactHeader | PassiveSendContactHeader =>
      var ch := MContactHeader(4, m.canTls);
      Completed(ch, m.(myContactHeader := Some(ch)))
    case ActiveSendSessInit | PassiveSendSessInit =>
      var si := OwnSessInit(m.myNodeId);
      Completed(MSessInit(si), m.(mySessInit := Some(si)))
    case SendXferAck(ack) => Completed(MXferAck(ack), m)
    case SendXferSegmentsAndAck(_, ack) => Completed(MXferAck(ack), m)
    case SendSessTerm(r) => Completed(MSessTerm(m.terminating, if r.Some? then r.value else TERM_UNKNOWN), m)
    case SendXferSegments(_) =>
      (match FeedSegment(m)
       case Sends(message, m') => Completed(message, m')
       case other => other)
    case SendKeepalive(_) => Completed(MKeepalive, m)
    case SendMsgReject(r, t) => Completed(MMsgReject(r, t), m)
    case _ => SendPanics
  }

  // ----- receiving

  function Unexpected(m: Machine, t: MessageType): DecodeOutcome {
    Decodes(m.(state := SendMsgReject(REJECT_UNEXPECTED, TypeCode(t))), Refused(MessageTypeInappropriate(t)))
  }

  /** An acknowledgement, in one of the two states that carry a tracker. */
  function DecodeAck(m: Machine, xa: XferAck): DecodeOutcome
    requires m.state.SendXferSegments? || m.state.SendXferSegmentsAndAck?
  {
    var tt := m.state.tracker;
    if tt.transfer.id != xa.id then DecodePanics else
    var tt' := tt.(posAcked := xa.length);
    var m' := m.(state := if m.state.SendXferSegments? then SendXferSegments(tt')
                          else SendXferSegmentsAndAck(tt', m.state.ack));
    if xa.length > tt.pos then Decodes(m', Refused(MessageError(InvalidAckValue)))
    else if xa.length == |tt.transfer.data| then
      Decodes(m.(state := if m.state.SendXferSegments? then SessionEstablished else SendXferAck(m.state.ack)),
              Accepted(MXferAck(xa)))
    else Decodes(m', Accepted(MXferAck(xa)))
  }

  /** The two states that wait for the contact header. */
  function DecodeContact(m: Machine, incoming: Incoming): DecodeOutcome {
    match incoming
    case Arrived(MContactHeader(_, _)) =>
      Decodes(m.(peerContactHeader := Some(incoming.message),
                 state := if m.state.PassiveWaitContactHeader? then PassiveSendContactHeader else ActiveSendSessInit),
              Accepted(incoming.message))
    case Garbled(InvalidHeader) => Decodes(m, Refused(DoesNotSpeakTcpcl))
    case _ => DecodePanics
  }

  /** A later decoding error; an unknown message type is answered with a reject. */
  function DecodeGarbled(m: Machine, e: CodecError): DecodeOutcome {
    Decodes(if e.InvalidMessageType? then m.(state := SendMsgReject(REJECT_TYPE_UNKNOWN, e.code)) else m,
            Refused(MessageError(e)))
  }

  /** A later message. */
  function DecodeArrived(m: Machine, msg: Message): DecodeOutcome {
    var transferring := m.state.SessionEstablished? || m.state.SendXferSegments? || m.state.SendXferSegmentsAndAck?;
    match msg
    case MContactHeader(_, _) => DecodePanics
    case MSessInit(si) =>
      if m.state.ActiveWaitSessInit? then
        Decodes(m.(peerSessInit := Some(si), state := SessionEstablished), Accepted(msg))
      else if m.state.PassiveWaitSessInit? then
        Decodes(m.(peerSessInit := Some(si), state := PassiveSendSessInit), Accepted(msg))
      else Unexpected(m, TSessInit)
    case MSessTerm(_, r) =>
      if m.state.WaitSessTerm? then Decodes(m.(state := ConnectionClose), Accepted(msg))
      else if transferring then Decodes(m.(state := SendSessTerm(Some(r)), terminating := true), Accepted(msg))
      else Unexpected(m, TSessTerm)
    case MXferSegment(_) => if transferring then Decodes(m, Accepted(msg)) else Unexpected(m, TXferSegment)
    case MXferAck(xa) =>
      if m.state.SendXferSegments? || m.state.SendXferSegmentsAndAck? then DecodeAck(m, xa)
      else Unexpected(m, TXferAck)
    case MKeepalive => Decodes(m, Accepted(msg))
    case MMsgReject(_, _) => Decodes(m, Accepted(msg))
    case MXferRefuse(_, _) => Unexpected(m, TXferRefuse)
  }

  /** `decode_message`. */
  function DecodeMessage(m: Machine, incoming: Incoming): DecodeOutcome {
    match m.state
    case PassiveWaitContactHeader | ActiveWaitContactHeader => DecodeContact(m, incoming)
    case ActiveWaitSessInit | PassiveWaitSessInit | WaitSessTerm | SessionEstablished
       | SendXferSegments(_) | SendXferSegmentsAndAck(_, _) | SendKeepalive(_) =>
      if incoming.Garbled? then DecodeGarbled(m, incoming.error) else DecodeArrived(m, incoming.message)
    case _ => DecodePanics
  }

  // ----- queries and requests

  /** `get_interests`. */
  function GetInterests(s: States): Option<Interest> {
    match s
    case ActiveSendContactHeader | PassiveSendContactHeader | ActiveSendSessInit | PassiveSendSessInit
       | SendXferAck(_) | SendSessTerm(_) | SendXferSegmentsAndAck(_, _) | SendKeepalive(_) | SendMsgReject(_, _) =>
      Some(Interest(false, true))
    case PassiveWaitContactHeader | ActiveWaitContactHeader | ActiveWaitSessInit | PassiveWaitSessInit
       | SessionEstablished | WaitSessTerm => Some(Interest(true, false))
    case SendXferSegments(tt) => Some(Interest(true, tt.pos < |tt.transfer.data|))
    case ConnectionClose | ShouldNeverExist => None
  }

  datatype TransferOutcome = Started(machine: Machine) | BundleTooLarge(maxSize: u64) | TransferPanics

  /** `send_transfer`. */
  function SendTransfer(m: Machine, data: bytes): TransferOutcome {
    if m.peerSessInit.None? then TransferPanics
    else if m.peerSessInit.value.transferMru < |data| then BundleTooLarge(m.peerSessInit.value.transferMru)
    else if m.lastUsedTransferId == 0xFFFF_FFFF_FFFF_FFFF then TransferPanics
    else
      var tt := TransferTracker(Transfer(m.lastUsedTransferId, data), 0, 0);
      var m' := m.(lastUsedTransferId := m.lastUsedTransferId + 1);
      match m.state
      case SendXferAck(ack) => Started(m'.(state := SendXferSegmentsAndAck(tt, ack)))
      case SessionEstablished => Started(m'.(state := SendXferSegments(tt)))
      case _ => TransferPanics
  }

  /** `send_ack`. */
  function SendAck(m: Machine, ack: XferAck): Option<Machine> {
    match m.state
    case SendXferSegments(tt) => Some(m.(state := SendXferSegmentsAndAck(tt, ack)))
    case SessionEstablished => Some(m.(state := SendXferAck(ack)))
    case _ => None
  }

  /** `close_connection`. */
  function CloseConnection(m: Machine, reason: Option<TermReason>): Option<Machine> {
    if m.state.SessionEstablished? then Some(m.(state := SendSessTerm(reason))) else None
  }

  /** `get_keepalive_interval`: the smaller announced interval, `Some(None)` when keepalives are off. */
  function KeepaliveInterval(m: Machine): Option<Option<u16>> {
    if !m.state.SessionEstablished? || m.mySessInit.None? || m.peerSessInit.None? then None
    else
      var mine, peers := m.mySessInit.value.keepaliveInterval, m.peerSessInit.value.keepaliveInterval;
      var k := if mine <= peers then mine else peers;
      Some(if k == 0 then None else Some(k))
  }

  predicate ContactHeaderDone(s: States) {
    !(s.ActiveSendContactHeader? || s.ActiveWaitContactHeader? || s.PassiveSendContactHeader?
      || s.PassiveWaitContactHeader?)
  }

  /** `should_use_tls`. */
  function ShouldUseTls(m: Machine): Option<bool> {
    if m.myContactHeader.None? || m.peerContactHeader.None? then None
    else Some(m.myContactHeader.value.MContactHeader? && m.myContactHeader.value.canTls
              && m.peerContactHeader.value.MContactHeader? && m.peerContactHeader.value.canTls)
  }

  predicate ConnectionClosing(s: States) {
    s.SendSessTerm? || s.WaitSessTerm? || s.ConnectionClose?
  }

  // ----- the object

  /** The framed writer: messages already handed over, in order. */
  class Writer {
    var sent: seq<Message>

    constructor ()
      ensures sent == []
    {
      sent := [];
    }

    method Send(m: Message)
      modifies this
      ensures sent == old(sent) + [m]
    {
      sent := sent + [m];
    }
  }

  class StateMachine {
    var state: States
    const canTls: bool
    const myNodeId: bytes
    var lastUsedTransferId: u64
    var myContactHeader: Option<Message>
    var peerContactHeader: Option<Message>
    var mySessInit: Option<SessInit>
    var peerSessInit: Option<SessInit>
    var terminating: bool

    function Value(): Machine
      reads this
    {
      Machine(state, canTls, myNodeId, lastUsedTransferId, myContactHeader, peerContactHeader, mySessInit,
              peerSessInit, terminating)
    }

    constructor (active: bool, nodeId: bytes, canTls: bool)
      ensures Value() == NewMachine(active, nodeId, canTls)
    {
      state := if active then ActiveSendContactHeader else PassiveWaitContactHeader;
      this.canTls, this.myNodeId := canTls, nodeId;
      lastUsedTransferId := 0;
      myContactHeader, peerContactHeader, mySessInit, peerSessInit := None, None, None, None;
      terminating := false;
    }

    method CompleteSend()
      requires SendComplete(Value()).Some?
      modifies this
      ensures SendComplete(old(Value())) == Some(Value())
    {
      var s := state;
      state := ShouldNeverExist;
      match s {
        case ActiveSendContactHeader => state := ActiveWaitContactHeader;
        case PassiveSendContactHeader => state := PassiveWaitSessInit;
        case ActiveSendSessInit => state := ActiveWaitSessInit;
        case PassiveSendSessInit | SendXferAck(_) => state := SessionEstablished;
        case SendXferSegmentsAndAck(tt, _) => state := SendXferSegments(tt);
        case SendXferSegments(tt) =>
          if tt.pos == |tt.transfer.data| && tt.pos == tt.posAcked {
            state := SessionEstablished;
          } else {
            state := SendXferSegments(tt);
          }
        case SendKeepalive(inner) => state := inner;
        case SendSessTerm(_) =>
          if terminating {
            state := ConnectionClose;
          } else {
            terminating := true;
            state := WaitSessTerm;
          }
        case SendMsgReject(_, _) =>
          terminating := true;
          state := ConnectionClose;
      }
    }

    method Send(writer: Writer)
      requires !SendMessage(Value()).SendPanics?
      modifies this, writer
      ensures match SendMessage(old(Value()))
              case Sends(message, m) => Value() == m && writer.sent == old(writer.sent) + [message]
              case _ => Value() == old(Value()) && writer.sent == old(writer.sent)
    {
      match state {
        case ActiveSendContactHeader | PassiveSendContactHeader =>
          var ch := MContactHeader(4, canTls);
          myContactHeader := Some(ch);
          writer.Send(ch);
        case ActiveSendSessInit | PassiveSendSessInit =>
          var si := OwnSessInit(myNodeId);
          mySessInit := Some(si);
          writer.Send(MSessInit(si));
        case SendXferAck(ack) => writer.Send(MXferAck(ack));
        case SendXferSegmentsAndAck(_, ack) => writer.Send(MXferAck(ack));
        case SendSessTerm(r) => writer.Send(MSessTerm(terminating, if r.Some? then r.value else TERM_UNKNOWN));
        case SendXferSegments(tt) =>
          var mru := peerSessInit.value.segmentMru;
          var end := Min(tt.pos + mru, |tt.transfer.data|);
          if tt.pos == |tt.transfer.data| {
            return;
          }
          var data := tt.transfer.data[tt.pos..end];
          var flags := SegmentFlags(tt.pos == 0, end == |tt.transfer.data|);
          writer.Send(MXferSegment(XferSegment(flags, tt.transfer.id, [], data)));
          state := SendXferSegments(tt.(pos := end));
        case SendKeepalive(_) => writer.Send(MKeepalive);
        case SendMsgReject(r, t) => writer.Send(MMsgReject(r, t));
      }
      CompleteSend();
    }

    method Decode(incoming: Incoming) returns (r: DecodeResult)
      requires DecodeMessage(Value(), incoming).Decodes?
      modifies this
      ensures DecodeMessage(old(Value()), incoming) == Decodes(Value(), r)
    {
      if state.PassiveWaitContactHeader? || state.ActiveWaitContactHeader? {
        if incoming.Garbled? {
          return Refused(DoesNotSpeakTcpcl);
        }
        peerContactHeader := Some(incoming.message);
        state := if state.PassiveWaitContactHeader? then PassiveSendContactHeader else ActiveSendSessInit;
        return Accepted(incoming.message);
      }
      if incoming.Garbled? {
        if incoming.error.InvalidMessageType? {
          state := SendMsgReject(REJECT_TYPE_UNKNOWN, incoming.error.code);
        }
        return Refused(MessageError(incoming.error));
      }
      match incoming.message {
        case MSessInit(si) =>
          if state.ActiveWaitSessInit? {
            peerSessInit := Some(si);
            state := SessionEstablished;
          } else if state.PassiveWaitSessInit? {
            peerSessInit := Some(si);
            state := PassiveSendSessInit;
          } else {
            r := Reject(TSessInit);
            return;
          }
        case MSessTerm(_, reason) =>
          if state.WaitSessTerm? {
            state := ConnectionClose;
          } else if state.SessionEstablished? || state.SendXferSegments? || state.SendXferSegmentsAndAck? {
            state := SendSessTerm(Some(reason));
            terminating := true;
          } else {
            r := Reject(TSessTerm);
            return;
          }
        case MXferSegment(_) =>
          if !(state.SessionEstablished? || state.SendXferSegments? || state.SendXferSegmentsAndAck?) {
            r := Reject(TXferSegment);
            return;
          }
        case MXferAck(xa) =>
          if state.SendXferSegments? || state.SendXferSegmentsAndAck? {
            r := AcceptAck(xa);
          } else {
            r := Reject(TXferAck);
          }
          return;
        case MKeepalive | MMsgReject(_, _) =>
        case MXferRefuse(_, _) =>
          r := Reject(TXferRefuse);
          return;
      }
      r := Accepted(incoming.message);
    }

    method AcceptAck(xa: XferAck) returns (r: DecodeResult)
      requires state.SendXferSegments? || state.SendXferSegmentsAndAck?
      requires state.tracker.transfer.id == xa.id
      modifies this
      ensures DecodeAck(old(Value()), xa) == Decodes(Value(), r)
    {
      var tt := state.tracker.(posAcked := xa.length);
      state := if state.SendXferSegments? then SendXferSegments(tt) else SendXferSegmentsAndAck(tt, state.ack);
      if tt.posAcked > tt.pos {
        return Refused(MessageError(InvalidAckValue));
      }
      if tt.posAcked == |tt.transfer.data| {
        var s := state;
        state := ShouldNeverExist;
        match s {
          case SendXferSegments(_) => state := SessionEstablished;
          case SendXferSegmentsAndAck(_, ack) => state := SendXferAck(ack);
        }
      }
      r := Accepted(MXferAck(xa));
    }

    method Reject(t: MessageType) returns (r: DecodeResult)
      modifies this`state
      ensures Unexpected(old(Value()), t) == Decodes(Value(), r)
    {
      state := SendMsgReject(REJECT_UNEXPECTED, TypeCode(t));
      r := Refused(MessageTypeInappropriate(t));
    }

    method StartTransfer(data: bytes) returns (tooLarge: Option<u64>)
      requires !SendTransfer(Value(), data).TransferPanics?
      modifies this
      ensures SendTransfer(old(Value()), data)
           == if tooLarge.Some? then BundleTooLarge(tooLarge.value) else Started(Value())
      ensures tooLarge.Some? ==> Value() == old(Value())
    {
      if peerSessInit.value.transferMru < |data| {
        return Some(peerSessInit.value.transferMru);
      }
      var tt := TransferTracker(Transfer(lastUsedTransferId, data), 0, 0);
      lastUsedTransferId := lastUsedTransferId + 1;
      var s := state;
      state := ShouldNeverExist;
      match s {
        case SendXferAck(ack) => state := SendXferSegmentsAndAck(tt, ack);
        case SessionEstablished => state := SendXferSegments(tt);
      }
      tooLarge := None;
    }

    method QueueAck(ack: XferAck)
      requires SendAck(Value(), ack).Some?
      modifies this
      ensures SendAck(old(Value()), ack) == Some(Value())
    {
      var s := state;
      state := ShouldNeverExist;
      match s {
        case SendXferSegments(tt) => state := SendXferSegmentsAndAck(tt, ack);
        case SessionEstablished => state := SendXferAck(ack);
      }
    }

    method QueueKeepalive()
      modifies this
      ensures Value() == old(Value()).(state := SendKeepalive(old(state)))
    {
      var s := state;
      state := ShouldNeverExist;
      state := SendKeepalive(s);
    }

    method Close(reason: Option<TermReason>)
      requires CloseConnection(Value(), reason).Some?
      modifies this
      ensures CloseConnection(old(Value()), reason) == Some(Value())
    {
      state := SendSessTerm(reason);
    }
  }
}
