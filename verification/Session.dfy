/** The session driver of `tcpcl/src/session.rs`: the state machine together with the bookkeeping of
    `drive_statemachine` and `read_message`, one loop iteration per step.

    A `Session` value also keeps the history the properties speak about: the transfers started, passed up and
    reported, and the messages read and written. */
module Session {
  import opened Bytes
  import opened Messages
  import opened StateMachine

  datatype Entry = In(message: Message) | Out(message: Message)

  datatype Session = Session(
    m: Machine,
    receiving: Option<Transfer>,
    resultFor: Option<u64>,
    announced: bool, keepaliveInitialized: bool, tlsInitialized: bool, timer: bool,
    headerRead: bool,
    ended: bool,
    started: seq<bytes>, delivered: seq<Transfer>, reported: seq<u64>, log: seq<Entry>)

  /** What the `select!` of one iteration may see.  `certificateOk` is the outcome of the peer certificate check,
      `idle` that of the keepalive deadline, `WriteCancelled` a segment write dropped between feed and flush,
      `Lost` the end of the connection. */
  datatype Event =
    | Read(incoming: Incoming, certificateOk: bool)
    | Write
    | WriteCancelled
    | Request(data: bytes)
    | Tick(idle: bool)
    | CloseRequest
    | Lost

  datatype StepOutcome = Stepped(session: Session) | StepPanics

  function NewSession(active: bool, nodeId: bytes, canTls: bool): Session {
    Session(NewMachine(active, nodeId, canTls), None, None, false, false, false, true, false, false, [], [], [], [])
  }

  /** The results the framed reader can give, depending on whether the contact header has been read. */
  predicate FromCodec(headerRead: bool, incoming: Incoming) {
    match incoming
    case Arrived(m) => m.MContactHeader? == !headerRead
    case Garbled(e) =>
      || e.IoError?
      || (e.InvalidHeader? == !headerRead && !e.InvalidAckValue? && (e.InvalidMessageType? ==> TypeOfCode(e.code).None?))
  }

  /** The guards of the `select!` branches. */
  predicate Enabled(s: Session, ev: Event) {
    var interest := GetInterests(s.m.state);
    && !s.ended
    && match ev
       case Read(incoming, _) => interest.Some? && interest.value.readable && FromCodec(s.headerRead, incoming)
       case Write => interest.Some? && interest.value.writable
       case WriteCancelled => interest.Some? && interest.value.writable && s.m.state.SendXferSegments?
       case Request(data) => s.m.state.SessionEstablished? && |data| < 0x8000_0000_0000_0000
       case Tick(_) => s.timer
       case CloseRequest => !ConnectionClosing(s.m.state) && s.m.state.SessionEstablished?
       case Lost => true
  }

  /** `len() as u64`. */
  function AsU64(n: nat): u64 {
    if n < 0x1_0000_0000_0000_0000 then n else n % 0x1_0000_0000_0000_0000
  }

  /** The receiving half for one segment: what is accumulated now, what is passed up, and the acknowledgement. */
  datatype Receipt = Receipt(receiving: Option<Transfer>, passedUp: seq<Transfer>, ack: Option<XferAck>)

  function Receive(receiving: Option<Transfer>, x: XferSegment): Receipt {
    if receiving.Some? && receiving.value.id != x.id then Receipt(receiving, [], None) else
    var t := Transfer(x.id, (if receiving.Some? then receiving.value.data else []) + x.data);
    var ack := XferAck(x.flags, x.id, AsU64(|t.data|));
    if x.flags.end then Receipt(None, [t], Some(ack)) else Receipt(Some(t), [], Some(ack))
  }

  /** `read_message` for an accepted segment. */
  function TakeSegment(s: Session, x: XferSegment): StepOutcome {
    var r := Receive(s.receiving, x);
    if r.ack.None? then Stepped(s) else
    match SendAck(s.m, r.ack.value)
    case None => StepPanics
    case Some(m') => Stepped(s.(m := m', receiving := r.receiving, delivered := s.delivered + r.passedUp))
  }

  /** The match on the decoded message in `read_message`. */
  function HandleResult(s: Session, result: DecodeResult, certificateOk: bool): StepOutcome {
    match result
    case Accepted(MSessInit(_)) =>
      (match ShouldUseTls(s.m)
       case None => StepPanics
       case Some(tls) => Stepped(if tls && !certificateOk then s.(ended := true) else s))
    case Accepted(MXferSegment(x)) => TakeSegment(s, x)
    case Accepted(MMsgReject(_, _)) => Stepped(s.(ended := true))
    case Accepted(_) => Stepped(s)
    case Refused(MessageError(InvalidMessageType(_))) => Stepped(s)
    case Refused(MessageTypeInappropriate(_)) => Stepped(s)
    case Refused(_) => Stepped(s.(ended := true))
  }

  /** A message has been read from the stream and decoded by the machine. */
  function AfterDecode(s: Session, m': Machine, incoming: Incoming): Session {
    if incoming.Garbled? then s.(m := m')
    else s.(m := m', log := s.log + [In(incoming.message)],
            headerRead := s.headerRead || incoming.message.MContactHeader?)
  }

  /** `read_message`. */
  function ReadStep(s: Session, incoming: Incoming, certificateOk: bool): StepOutcome {
    match DecodeMessage(s.m, incoming)
    case DecodePanics => StepPanics
    case Decodes(m', result) => HandleResult(AfterDecode(s, m', incoming), result, certificateOk)
  }

  function Written(s: Session, o: SendOutcome): StepOutcome {
    match o
    case SendPanics => StepPanics
    case SendIdle => Stepped(s)
    case Sends(message, m') => Stepped(s.(m := m', log := s.log + [Out(message)]))
  }

  function RequestStep(s: Session, data: bytes): StepOutcome {
    match SendTransfer(s.m, data)
    case TransferPanics => StepPanics
    case BundleTooLarge(_) => Stepped(s)
    case Started(m') =>
      Stepped(s.(m := m', resultFor := Some(s.m.lastUsedTransferId), started := s.started + [data]))
  }

  function CloseStep(s: Session, reason: TermReason): StepOutcome {
    match CloseConnection(s.m, Some(reason))
    case None => StepPanics
    case Some(m') => Stepped(s.(m := m'))
  }

  function TickStep(s: Session, idle: bool): StepOutcome {
    if s.m.state.SessionEstablished? && KeepaliveInterval(s.m).None? then StepPanics else
    var closed := if s.m.state.SessionEstablished? && idle then CloseStep(s, TERM_IDLE_TIMEOUT) else Stepped(s);
    if closed.Stepped? && s.keepaliveInitialized then
      var m' := closed.session.m;
      Stepped(closed.session.(m := m'.(state := SendKeepalive(m'.state))))
    else closed
  }

  /** The chosen branch of the `select!`. */
  function Branch(s: Session, ev: Event): StepOutcome {
    match ev
    case Read(incoming, certificateOk) => ReadStep(s, incoming, certificateOk)
    case Write => Written(s, SendMessage(s.m))
    case WriteCancelled => if s.m.state.SendXferSegments? then Written(s, FeedSegment(s.m)) else StepPanics
    case Request(data) => RequestStep(s, data)
    case Tick(idle) => TickStep(s, idle)
    case CloseRequest => CloseStep(s, TERM_RESOURCE_EXHAUSTION)
    case Lost => Stepped(s.(ended := true))
  }

  /** An established session: announcement, keepalive timer, and the report of the finished transfer. */
  function Announced(s: Session): Session
    requires KeepaliveInterval(s.m).Some?
  {
    var s2 := s.(announced := true, keepaliveInitialized := true,
                 timer := if s.keepaliveInitialized then s.timer else KeepaliveInterval(s.m).value.Some?);
    if s.resultFor.Some? then s2.(resultFor := None, reported := s.reported + [s.resultFor.value]) else s2
  }

  /** The head of the next iteration: TLS once the headers are in, the announcement and the keepalive interval once
      the session is established, the report to the requester of a finished transfer, and the orderly end. */
  function Settle(s: Session): StepOutcome {
    if s.ended then Stepped(s)
    else if !s.tlsInitialized && ContactHeaderDone(s.m.state) && ShouldUseTls(s.m).None? then StepPanics
    else if s.m.state.SessionEstablished? && (s.m.peerSessInit.None? || KeepaliveInterval(s.m).None?) then StepPanics
    else
      var s1 := s.(tlsInitialized := s.tlsInitialized || ContactHeaderDone(s.m.state));
      if s.m.state.ConnectionClose? then Stepped(s1.(ended := true))
      else if !s.m.state.SessionEstablished? then Stepped(s1)
      else Stepped(Announced(s1))
  }

  /** One iteration of the driver loop. */
  function Step(s: Session, ev: Event): StepOutcome {
    match Branch(s, ev)
    case StepPanics => StepPanics
    case Stepped(s') => Settle(s')
  }

  datatype RunOutcome = Ran(session: Session) | RunPanics | NotEnabled

  /** A whole run of the driver on a schedule of events. */
  function Run(s: Session, evs: seq<Event>): RunOutcome
    decreases |evs|
  {
    if evs == [] then Ran(s)
    else if !Enabled(s, evs[0]) then NotEnabled
    else match Step(s, evs[0])
         case StepPanics => RunPanics
         case Stepped(s') => Run(s', evs[1..])
  }

  // ----- the object

  class TCPCLSession {
    const statemachine: StateMachine
    const writer: Writer
    var receivingTransfer: Option<Transfer>
    var receiveChannel: seq<Transfer>
    var transferResultSender: Option<u64>
    var results: seq<u64>
    var announced: bool
    var initializedKeepalive: bool
    var initializedTls: bool
    var keepaliveTimer: bool
    var headerRead: bool
    var ended: bool
    ghost var started: seq<bytes>
    ghost var log: seq<Entry>

    ghost function Value(): Session
      reads this, statemachine
    {
      Session(statemachine.Value(), receivingTransfer, transferResultSender, announced, initializedKeepalive,
              initializedTls, keepaliveTimer, headerRead, ended, started, receiveChannel, results, log)
    }

    constructor (active: bool, nodeId: bytes, canTls: bool)
      ensures Value() == NewSession(active, nodeId, canTls)
      ensures fresh(statemachine) && fresh(writer)
    {
      statemachine := new StateMachine(active, nodeId, canTls);
      writer := new Writer();
      receivingTransfer, receiveChannel, transferResultSender, results := None, [], None, [];
      announced, initializedKeepalive, initializedTls, keepaliveTimer := false, false, false, true;
      headerRead, ended := false, false;
      started, log := [], [];
    }

    /** Accumulates a segment, passes a finished transfer up and queues the acknowledgement. */
    method AcceptSegment(x: XferSegment)
      requires TakeSegment(Value(), x).Stepped?
      modifies this, statemachine
      ensures TakeSegment(old(Value()), x) == Stepped(Value())
    {
      var ack: XferAck;
      if receivingTransfer.Some? {
        var t := receivingTransfer.value;
        if t.id != x.id {
          return;
        }
        receivingTransfer := Some(t.(data := t.data + x.data));
        ack := XferAck(x.flags, x.id, AsU64(|receivingTransfer.value.data|));
      } else {
        assert [] + x.data == x.data;
        ack := XferAck(x.flags, x.id, AsU64(|x.data|));
        receivingTransfer := Some(Transfer(x.id, x.data));
      }
      if x.flags.end {
        receiveChannel := receiveChannel + [receivingTransfer.value];
        receivingTransfer := None;
      }
      assert old(receiveChannel) + [] == old(receiveChannel);
      statemachine.QueueAck(ack);
    }

    method ReadMessage(incoming: Incoming, certificateOk: bool)
      requires ReadStep(Value(), incoming, certificateOk).Stepped?
      modifies this, statemachine
      ensures ReadStep(old(Value()), incoming, certificateOk) == Stepped(Value())
    {
      hide DecodeMessage, HandleResult;
      var result := statemachine.Decode(incoming);
      if incoming.Arrived? {
        log := log + [In(incoming.message)];
        if incoming.message.MContactHeader? {
          headerRead := true;
        }
      }
      Handle(result, certificateOk);
    }

    method Handle(result: DecodeResult, certificateOk: bool)
      requires HandleResult(Value(), result, certificateOk).Stepped?
      modifies this, statemachine
      ensures HandleResult(old(Value()), result, certificateOk) == Stepped(Value())
    {
      hide TakeSegment, ShouldUseTls;
      match result {
        case Accepted(MSessInit(_)) =>
          if ShouldUseTls(statemachine.Value()).value && !certificateOk {
            ended := true;
          }
        case Accepted(MXferSegment(x)) => AcceptSegment(x);
        case Accepted(MMsgReject(_, _)) => ended := true;
        case Accepted(_) =>
        case Refused(MessageError(InvalidMessageType(_))) =>
        case Refused(MessageTypeInappropriate(_)) =>
        case Refused(_) => ended := true;
      }
    }

    /** The head of the loop. */
    method PrepareIteration()
      requires Settle(Value()).Stepped?
      modifies this
      ensures Settle(old(Value())) == Stepped(Value())
    {
      hide ShouldUseTls, KeepaliveInterval, ContactHeaderDone, Announced;
      if ended {
        return;
      }
      if !initializedTls && ContactHeaderDone(statemachine.state) {
        initializedTls := true;
      }
      if statemachine.state.SessionEstablished? {
        Announce();
      }
      if statemachine.state.ConnectionClose? {
        ended := true;
      }
    }

    /** What the head of the loop does once the session is established. */
    method Announce()
      requires KeepaliveInterval(statemachine.Value()).Some?
      modifies this
      ensures Value() == Announced(old(Value()))
    {
      hide KeepaliveInterval;
      announced := true;
      if !initializedKeepalive {
        keepaliveTimer := KeepaliveInterval(statemachine.Value()).value.Some?;
        initializedKeepalive := true;
      }
      if transferResultSender.Some? {
        results := results + [transferResultSender.value];
        transferResultSender := None;
      }
    }

    /** One branch of the `select!`. */
    method Select(ev: Event)
      requires Enabled(Value(), ev) && Branch(Value(), ev).Stepped?
      modifies this, statemachine, writer
      ensures Branch(old(Value()), ev) == Stepped(Value())
    {
      hide DecodeMessage, ReadStep;
      match ev {
        case Read(incoming, certificateOk) => ReadMessage(incoming, certificateOk);
        case Write => WriteMessage();
        case WriteCancelled => FeedMessage();
        case Request(data) =>
          var request := Some(statemachine.lastUsedTransferId);
          var tooLarge := statemachine.StartTransfer(data);
          if tooLarge.None? {
            transferResultSender := request;
            started := started + [data];
          }
        case Tick(idle) =>
          if statemachine.state.SessionEstablished? && idle {
            statemachine.Close(Some(TERM_IDLE_TIMEOUT));
          }
          if initializedKeepalive {
            statemachine.QueueKeepalive();
          }
        case CloseRequest => statemachine.Close(Some(TERM_RESOURCE_EXHAUSTION));
        case Lost => ended := true;
      }
    }

    method WriteMessage()
      requires Written(Value(), SendMessage(statemachine.Value())).Stepped?
      modifies this, statemachine, writer
      ensures Written(old(Value()), SendMessage(old(statemachine.Value()))) == Stepped(Value())
    {
      hide SendMessage;
      ghost var o := SendMessage(statemachine.Value());
      statemachine.Send(writer);
      if o.Sends? {
        log := log + [Out(o.message)];
      }
    }

    /** A segment write whose flush is cancelled: fed to the writer, position moved, nothing else. */
    method FeedMessage()
      requires statemachine.state.SendXferSegments?
      requires Written(Value(), FeedSegment(statemachine.Value())).Stepped?
      modifies this, statemachine, writer
      ensures Written(old(Value()), FeedSegment(old(statemachine.Value()))) == Stepped(Value())
    {
      var tt := statemachine.state.tracker;
      if tt.pos < |tt.transfer.data| {
        var mru := statemachine.peerSessInit.value.segmentMru;
        var seg := MXferSegment(NextSegment(tt, mru));
        writer.Send(seg);
        log := log + [Out(seg)];
        statemachine.state := SendXferSegments(tt.(pos := SegmentEnd(tt, mru)));
      }
    }

    /** `drive_statemachine` on a schedule: the loop reaches exactly the session `Run` describes. */
    method Drive(schedule: seq<Event>)
      requires Run(Value(), schedule).Ran?
      modifies this, statemachine, writer
      ensures Run(old(Value()), schedule) == Ran(Value())
    {
      hide Enabled, Branch, Settle;
      for i := 0 to |schedule|
        invariant Run(old(Value()), schedule) == Run(Value(), schedule[i..])
      {
        assert schedule[i..][0] == schedule[i] && schedule[i..][1..] == schedule[i + 1..];
        Select(schedule[i]);
        PrepareIteration();
      }
    }
  }
}
