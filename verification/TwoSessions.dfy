/** Two sessions joined by two first-in first-out channels of messages. */
module TwoSessions {
  import opened Bytes
  import opened Messages
  import opened StateMachine
  import opened Session
  import opened SessionSafety
  import opened SessionTermination
  import opened TransferLink

  /** `ab` and `ba` are the messages in flight. */
  datatype System = System(a: Session, b: Session, ab: seq<Message>, ba: seq<Message>)

  /** Which side takes its next step, and on what event. */
  datatype Move = Move(left: bool, event: Event)

  /** A read takes the message at the head of the incoming channel; ids do not run out. */
  predicate CanMove(s: Session, inbox: seq<Message>, ev: Event) {
    && Enabled(s, ev)
    && (ev.Read? ==> inbox != [] && ev.incoming == Incoming.Arrived(inbox[0]))
    && (ev.Request? ==> |s.started| < 0xFFFF_FFFF_FFFF_FFFF)
  }

  function Emitted(s: Session, ev: Event): seq<Message> {
    if ev.Write? && SendMessage(s.m).Sends? then [SendMessage(s.m).message]
    else if ev.WriteCancelled? && s.m.state.SendXferSegments? && FeedSegment(s.m).Sends? then [FeedSegment(s.m).message]
    else []
  }

  function Inbox(inbox: seq<Message>, ev: Event): seq<Message>
    requires ev.Read? ==> inbox != []
  {
    if ev.Read? then inbox[1..] else inbox
  }

  datatype SystemOutcome = Moved(system: System) | SystemPanics | Blocked

  function MoveSystem(sys: System, mv: Move): SystemOutcome {
    var s := if mv.left then sys.a else sys.b;
    var inbox, outbox := if mv.left then sys.ba else sys.ab, if mv.left then sys.ab else sys.ba;
    if !CanMove(s, inbox, mv.event) then Blocked else
    match Step(s, mv.event)
    case StepPanics => SystemPanics
    case Stepped(s') =>
      var inbox', outbox' := Inbox(inbox, mv.event), outbox + Emitted(s, mv.event);
      Moved(if mv.left then System(s', sys.b, outbox', inbox') else System(sys.a, s', inbox', outbox'))
  }

  function RunSystem(sys: System, moves: seq<Move>): SystemOutcome
    decreases |moves|
  {
    if moves == [] then Moved(sys) else
    match MoveSystem(sys, moves[0])
    case Moved(sys') => RunSystem(sys', moves[1..])
    case other => other
  }

  function Connect(nodeA: bytes, tlsA: bool, nodeB: bytes, tlsB: bool): System {
    System(NewSession(true, nodeA, tlsA), NewSession(false, nodeB, tlsB), [], [])
  }

  // ----- the parts of a session that take part in a transfer

  function Segs(ch: seq<Message>): seq<XferSegment> {
    if ch == [] then [] else (if ch[0].MXferSegment? then [ch[0].segment] else []) + Segs(ch[1..])
  }

  function Acks(ch: seq<Message>): seq<XferAck> {
    if ch == [] then [] else (if ch[0].MXferAck? then [ch[0].ack] else []) + Acks(ch[1..])
  }

  function Live(m: Machine): bool {
    !Closing(Core(m.state))
  }

  function Tracker(m: Machine): Option<TransferTracker> {
    if HasTracker(Core(m.state)) then Some(Core(m.state).tracker) else None
  }

  function PendingAck(m: Machine): Option<XferAck> {
    var c := Core(m.state);
    if c.SendXferAck? || c.SendXferSegmentsAndAck? then Some(c.ack) else None
  }

  /** The transfer link from snd to rcv. */
  function LinkOf(snd: Session, rcv: Session, fwd: seq<Message>, back: seq<Message>): Link {
    Link(Live(snd.m), Tracker(snd.m), snd.started, Segs(fwd),
         Live(rcv.m), rcv.receiving, rcv.delivered, PendingAck(rcv.m), Acks(back))
  }

  lemma {:induction false} SegsAppend(ch: seq<Message>, m: Message)
    ensures Segs(ch + [m]) == Segs(ch) + if m.MXferSegment? then [m.segment] else []
    ensures Acks(ch + [m]) == Acks(ch) + if m.MXferAck? then [m.ack] else []
    decreases |ch|
  {
    if ch == [] {
      assert ch + [m] == [m] && [m][1..] == [];
    } else {
      assert (ch + [m])[1..] == ch[1..] + [m] && (ch + [m])[0] == ch[0];
      SegsAppend(ch[1..], m);
      hide Segs, Acks;
      SegsHead(ch);
      SegsHead(ch + [m]);
    }
  }

  lemma SegsHead(ch: seq<Message>)
    requires ch != []
    ensures Segs(ch) == (if ch[0].MXferSegment? then [ch[0].segment] else []) + Segs(ch[1..])
    ensures Acks(ch) == (if ch[0].MXferAck? then [ch[0].ack] else []) + Acks(ch[1..])
  {
  }

  // ----- what one step does to those parts

  /** Writing msg moved the machine from m to m': a segment advances the tracker, an acknowledgement was pending and
      is not any more, and anything else leaves the transfer alone. */
  ghost predicate SentParts(m: Machine, m': Machine, msg: Message) {
    && Live(m') == Live(m)
    && PendingAck(m') == (if msg.MXferAck? then None else PendingAck(m))
    && (msg.MXferAck? ==> PendingAck(m) == Some(msg.ack))
    && (!msg.MXferSegment? ==> Tracker(m') == Tracker(m))
    && (msg.MXferSegment? ==>
          && Tracker(m).Some? && m.peerSessInit.Some?
          && var tt, mru := Tracker(m).value, m.peerSessInit.value.segmentMru;
             && tt.pos < |tt.transfer.data| && msg.segment == NextSegment(tt, mru)
             && Tracker(m') == Some(tt.(pos := SegmentEnd(tt, mru))))
  }

  lemma SendParts(m: Machine)
    requires SendMessage(m).Sends?
    requires m.state.SendXferSegments? ==> m.state.tracker.posAcked <= m.state.tracker.pos
    requires m.state.SendXferSegments? && m.peerSessInit.Some? ==> m.peerSessInit.value.segmentMru >= 1
    ensures SentParts(m, SendMessage(m).machine, SendMessage(m).message)
  {
    hide NextSegment;
  }

  lemma FeedParts(m: Machine)
    requires m.state.SendXferSegments? && FeedSegment(m).Sends?
    ensures SentParts(m, FeedSegment(m).machine, FeedSegment(m).message)
  {
    hide NextSegment;
  }

  /** Reading a message that is neither a segment nor an acknowledgement changes nothing, or starts to close. */
  lemma DecodeOtherParts(m: Machine, msg: Message)
    requires Readable(m.state) && DecodeMessage(m, Incoming.Arrived(msg)).Decodes? && !msg.MXferSegment? && !msg.MXferAck?
    ensures var m' := DecodeMessage(m, Incoming.Arrived(msg)).machine;
            && PendingAck(m) == None && PendingAck(m') == None
            && (Live(m') ==> Live(m) && Tracker(m') == Tracker(m))
            && (!Live(m') ==> Tracker(m') == None)
  {
  }

  lemma DecodeSegmentParts(m: Machine, x: XferSegment)
    requires Readable(m.state) && DecodeMessage(m, Incoming.Arrived(MXferSegment(x))).Decodes?
    ensures var d := DecodeMessage(m, Incoming.Arrived(MXferSegment(x)));
            && PendingAck(m) == None
            && if m.state.SessionEstablished? || m.state.SendXferSegments?
               then d.machine == m && d.result == Accepted(MXferSegment(x)) && Live(m)
               else d.result.Refused? && d.result.error.MessageTypeInappropriate? && !Live(d.machine)
                    && Tracker(d.machine) == None && PendingAck(d.machine) == None
  {
  }

  lemma DecodeAckParts(m: Machine, a: XferAck)
    requires Readable(m.state) && DecodeMessage(m, Incoming.Arrived(MXferAck(a))).Decodes?
    ensures var d := DecodeMessage(m, Incoming.Arrived(MXferAck(a)));
            && PendingAck(m) == None && PendingAck(d.machine) == None
            && (m.state.SendXferSegments? ==> Live(m) && Live(d.machine))
            && (m.state.SendXferSegments? && a.length <= m.state.tracker.pos ==>
                  && d.result == Accepted(MXferAck(a))
                  && Tracker(d.machine) == (if a.length == |m.state.tracker.transfer.data| then None
                                            else Some(m.state.tracker.(posAcked := a.length))))
            && (!m.state.SendXferSegments? ==>
                  !Live(d.machine) && Tracker(d.machine) == None && Tracker(m) == None
                  && d.result.Refused? && d.result.error.MessageTypeInappropriate?)
  {
  }

  lemma ReceiveWithoutAck(receiving: Option<Transfer>, x: XferSegment)
    ensures Receive(receiving, x).ack.None? ==> Receive(receiving, x) == Receipt(receiving, [], None)
  {
  }

  lemma SendAckParts(m: Machine, ack: XferAck)
    requires m.state.SessionEstablished? || m.state.SendXferSegments?
    ensures PendingAck(m) == None && Live(m)
    ensures var o := SendAck(m, ack);
            o.Some? && PendingAck(o.value) == Some(ack) && Tracker(o.value) == Tracker(m) && Live(o.value)
            && o.value == m.(state := o.value.state)
  {
  }

  /** Handling an accepted segment is the receiving transition of the link. */
  lemma TakeSegmentParts(s: Session, x: XferSegment)
    requires s.m.state.SessionEstablished? || s.m.state.SendXferSegments?
    ensures TakeSegment(s, x).Stepped?
    ensures var s', r := TakeSegment(s, x).session, Receive(s.receiving, x);
            && PendingAck(s'.m) == r.ack && Tracker(s'.m) == Tracker(s.m) && Live(s'.m) == Live(s.m)
            && s' == s.(m := s.m.(state := s'.m.state), receiving := r.receiving, delivered := s.delivered + r.passedUp)
  {
    hide Receive, SendAck, PendingAck, Tracker, Live;
    var r := Receive(s.receiving, x);
    ReceiveWithoutAck(s.receiving, x);
    assert s.delivered + [] == s.delivered;
    if r.ack.Some? {
      SendAckParts(s.m, r.ack.value);
    } else {
      SendAckParts(s.m, XferAck(x.flags, x.id, 0));
    }
  }

  /** Handling anything else only decides whether the session goes on. */
  lemma HandleOther(s: Session, result: DecodeResult, certificateOk: bool)
    requires HandleResult(s, result, certificateOk).Stepped?
    requires !(result.Accepted? && result.message.MXferSegment?)
    ensures var s' := HandleResult(s, result, certificateOk).session; s' == s || s' == s.(ended := true)
  {
    hide TakeSegment, ShouldUseTls;
  }
}
