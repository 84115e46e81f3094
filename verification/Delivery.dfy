/** End-to-end delivery between two sessions, over every run. */
module Delivery {
  import opened Bytes
  import opened Messages
  import opened StateMachine
  import opened Session
  import opened SessionSafety
  import opened SessionTermination
  import opened TransferLink
  import opened TwoSessions

  // ----- reading

  lemma SplitInbox(inbox: seq<Message>)
    requires inbox != []
    ensures if inbox[0].MXferSegment?
            then Segs(inbox) != [] && Segs(inbox)[0] == inbox[0].segment && Segs(inbox)[1..] == Segs(inbox[1..])
            else Segs(inbox) == Segs(inbox[1..])
    ensures if inbox[0].MXferAck?
            then Acks(inbox) != [] && Acks(inbox)[0] == inbox[0].ack && Acks(inbox)[1..] == Acks(inbox[1..])
            else Acks(inbox) == Acks(inbox[1..])
  {
  }

  /** In a two-session run an acknowledgement never names another transfer, nor covers more than was sent. */
  lemma AckIsExpected(s: Session, peer: Session, outbox: seq<Message>, inbox: seq<Message>)
    requires Inv(LinkOf(s, peer, outbox, inbox)) && inbox != [] && inbox[0].MXferAck?
    requires s.m.state.SendXferSegments?
    ensures var tt, a := s.m.state.tracker, inbox[0].ack; a.id == tt.transfer.id && tt.posAcked < a.length <= tt.pos
  {
    hide Inv;
    SplitInbox(inbox);
    AckKeepsInv(LinkOf(s, peer, outbox, inbox));
  }

  lemma ReadSteps(s: Session, peer: Session, outbox: seq<Message>, inbox: seq<Message>, ev: Event)
    requires Good(s) && ev.Read? && CanMove(s, inbox, ev) && Inv(LinkOf(s, peer, outbox, inbox))
    ensures ReadStep(s, ev.incoming, ev.certificateOk).Stepped? && Readable(s.m.state)
  {
    hide Inv, ReadStep, Good;
    if inbox[0].MXferAck? && s.m.state.SendXferSegments? {
      AckIsExpected(s, peer, outbox, inbox);
    }
    assert !BadInput(s, ev);
    ReadKeepsEquipped(s, ev.incoming, ev.certificateOk);
  }

  /** The machine of a session after reading, and what else the read changed. */
  lemma ReadOther(s: Session, incoming: Incoming, certificateOk: bool)
    requires ReadStep(s, incoming, certificateOk).Stepped? && incoming.Arrived?
    requires var r := DecodeMessage(s.m, incoming).result; !(r.Accepted? && r.message.MXferSegment?)
    ensures var s' := ReadStep(s, incoming, certificateOk).session;
            && s'.m == DecodeMessage(s.m, incoming).machine
            && s'.started == s.started && s'.receiving == s.receiving && s'.delivered == s.delivered
            && s'.resultFor == s.resultFor && s'.reported == s.reported
            && s'.headerRead == (s.headerRead || incoming.message.MContactHeader?)
  {
    hide DecodeMessage, HandleResult;
    var d := DecodeMessage(s.m, incoming);
    HandleOther(AfterDecode(s, d.machine, incoming), d.result, certificateOk);
  }

  lemma ReadAccepted(s: Session, x: XferSegment, certificateOk: bool)
    requires DecodeMessage(s.m, Incoming.Arrived(MXferSegment(x))) == Decodes(s.m, Accepted(MXferSegment(x)))
    requires s.m.state.SessionEstablished? || s.m.state.SendXferSegments?
    ensures ReadStep(s, Incoming.Arrived(MXferSegment(x)), certificateOk).Stepped?
    ensures var s', r := ReadStep(s, Incoming.Arrived(MXferSegment(x)), certificateOk).session, Receive(s.receiving, x);
            && PendingAck(s'.m) == r.ack && Tracker(s'.m) == Tracker(s.m) && Live(s'.m) == Live(s.m)
            && s'.m == s.m.(state := s'.m.state)
            && s'.receiving == r.receiving && s'.delivered == s.delivered + r.passedUp && s'.started == s.started
            && s'.resultFor == s.resultFor && s'.reported == s.reported && s'.headerRead == s.headerRead
  {
    hide DecodeMessage, TakeSegment, Receive, PendingAck, Tracker, Live;
    TakeSegmentParts(AfterDecode(s, s.m, Incoming.Arrived(MXferSegment(x))), x);
  }

  lemma ReadKeepsSender(s: Session, peer: Session, outbox: seq<Message>, inbox: seq<Message>, ev: Event)
    requires Good(s) && ev.Read? && CanMove(s, inbox, ev) && Inv(LinkOf(s, peer, outbox, inbox))
    ensures ReadStep(s, ev.incoming, ev.certificateOk).Stepped?
    ensures Inv(LinkOf(ReadStep(s, ev.incoming, ev.certificateOk).session, peer, outbox, inbox[1..]))
  {
    hide Inv, ReadStep, DecodeMessage, Good, PendingAck, Receive;
    ReadSteps(s, peer, outbox, inbox, ev);
    SplitInbox(inbox);
    var l, msg := LinkOf(s, peer, outbox, inbox), inbox[0];
    SenderStopKeepsInv(l);
    DecodesWhenStepped(s, ev.incoming, ev.certificateOk);
    OtherNotSegment(s.m, msg);
    if msg.MXferSegment? {
      DecodeSegmentParts(s.m, msg.segment);
      if s.m.state.SessionEstablished? || s.m.state.SendXferSegments? {
        ReadAccepted(s, msg.segment, ev.certificateOk);
      } else {
        ReadOther(s, ev.incoming, ev.certificateOk);
      }
    } else if msg.MXferAck? {
      DecodeAckParts(s.m, msg.ack);
      ReadOther(s, ev.incoming, ev.certificateOk);
      if s.m.state.SendXferSegments? {
        AckKeepsInv(l);
      } else {
        IdleHasNoAcks(l);
        SenderDropsAck(l);
      }
    } else {
      DecodeOtherParts(s.m, msg);
      ReadOther(s, ev.incoming, ev.certificateOk);
    }
  }

  lemma IdleHasNoAcks(l: Link)
    requires Inv(l) && l.tracker.None? && l.acks != []
    ensures !l.sndLive
  {
  }

  lemma DecodesWhenStepped(s: Session, incoming: Incoming, certificateOk: bool)
    requires ReadStep(s, incoming, certificateOk).Stepped?
    ensures DecodeMessage(s.m, incoming).Decodes?
  {
  }

  /** The machine accepts nothing but the message it was given. */
  lemma OtherNotSegment(m: Machine, msg: Message)
    requires DecodeMessage(m, Incoming.Arrived(msg)).Decodes?
    ensures var r := DecodeMessage(m, Incoming.Arrived(msg)).result; r.Accepted? ==> r.message == msg
  {
  }

  lemma ReadKeepsReceiver(s: Session, peer: Session, outbox: seq<Message>, inbox: seq<Message>, ev: Event)
    requires ev.Read? && CanMove(s, inbox, ev) && Inv(LinkOf(peer, s, inbox, outbox))
    requires ReadStep(s, ev.incoming, ev.certificateOk).Stepped? && Readable(s.m.state)
    ensures Inv(LinkOf(peer, ReadStep(s, ev.incoming, ev.certificateOk).session, inbox[1..], outbox))
  {
    hide Inv, ReadStep, DecodeMessage, Tracker, Receive;
    SplitInbox(inbox);
    var l, msg := LinkOf(peer, s, inbox, outbox), inbox[0];
    DecodesWhenStepped(s, ev.incoming, ev.certificateOk);
    OtherNotSegment(s.m, msg);
    if msg.MXferSegment? {
      DecodeSegmentParts(s.m, msg.segment);
      if s.m.state.SessionEstablished? || s.m.state.SendXferSegments? {
        ReadAccepted(s, msg.segment, ev.certificateOk);
        ReceiveKeepsInv(l);
      } else {
        ReadOther(s, ev.incoming, ev.certificateOk);
        ReceiverStopKeepsInv(l);
        ReceiverDropsSegment(l.(rcvLive := false));
      }
    } else if msg.MXferAck? {
      DecodeAckParts(s.m, msg.ack);
      ReadOther(s, ev.incoming, ev.certificateOk);
      ReceiverStopKeepsInv(l);
    } else {
      DecodeOtherParts(s.m, msg);
      ReadOther(s, ev.incoming, ev.certificateOk);
      ReceiverStopKeepsInv(l);
    }
  }

  // ----- everything else

  /** The peer announced a segment limit that lets transfers make progress. */
  predicate Limits(s: Session) {
    s.m.peerSessInit.Some? ==>
      s.m.peerSessInit.value.segmentMru == MAX_SEGMENT_MRU && s.m.peerSessInit.value.transferMru == MAX_TRANSFER_MRU
  }

  /** A message written moves both links on. */
  lemma SentKeepsLinks(s: Session, s': Session, msg: Message, peer: Session, outbox: seq<Message>, inbox: seq<Message>)
    requires SentParts(s.m, s'.m, msg) && Limits(s) && s' == s.(m := s'.m, log := s'.log)
    requires Inv(LinkOf(s, peer, outbox, inbox)) && Inv(LinkOf(peer, s, inbox, outbox))
    ensures Inv(LinkOf(s', peer, outbox + [msg], inbox)) && Inv(LinkOf(peer, s', inbox, outbox + [msg]))
  {
    hide Inv, Live, PendingAck, Tracker, NextSegment, Segs, Acks;
    SegsAppend(outbox, msg);
    assert Segs(outbox) + [] == Segs(outbox) && Acks(outbox) + [] == Acks(outbox);
    if msg.MXferSegment? {
      SegmentKeepsInv(LinkOf(s, peer, outbox, inbox), s.m.peerSessInit.value.segmentMru);
    } else if msg.MXferAck? {
      AckSentKeepsInv(LinkOf(peer, s, inbox, outbox));
    }
  }

  /** A write of either kind sends exactly one message and changes nothing but the machine. */
  lemma WriteSteps(s: Session, ev: Event)
    requires Good(s) && Limits(s) && (ev.Write? || ev.WriteCancelled?) && Enabled(s, ev)
    ensures Branch(s, ev).Stepped? && |Emitted(s, ev)| == 1
    ensures var s' := Branch(s, ev).session;
            && SentParts(s.m, s'.m, Emitted(s, ev)[0])
            && s' == s.(m := s'.m, log := s.log + [Out(Emitted(s, ev)[0])])
  {
    hide SendMessage, FeedSegment, Fit, KeepaliveFit, SentParts, ReadStep;
    if ev.Write? {
      SendKeepsFit(s.m, s.headerRead, s.keepaliveInitialized);
      TrackerWithin(s);
      SendParts(s.m);
    } else {
      FeedKeepsFit(s.m, s.headerRead, s.keepaliveInitialized);
      FeedParts(s.m);
    }
  }

  lemma TrackerWithin(s: Session)
    requires Good(s) && !s.ended
    ensures s.m.state.SendXferSegments? ==> s.m.state.tracker.posAcked <= s.m.state.tracker.pos
  {
  }

  /** Neither reading nor writing: what a request, a tick or a close does to the parts of a transfer. */
  datatype Change = Same | Starts(data: bytes) | Stops

  ghost predicate Changed(s: Session, s': Session, c: Change) {
    && s'.receiving == s.receiving && s'.delivered == s.delivered && PendingAck(s'.m) == PendingAck(s.m)
    && match c
       case Same => Live(s'.m) == Live(s.m) && Tracker(s'.m) == Tracker(s.m) && s'.started == s.started
       case Starts(data) =>
         && Live(s.m) && Live(s'.m) && Tracker(s.m) == None && |data| < 0x8000_0000_0000_0000
         && s'.started == s.started + [data]
         && Tracker(s'.m) == Some(TransferTracker(Transfer(AsU64(|s.started|), data), 0, 0))
       case Stops =>
         !Live(s'.m) && Tracker(s'.m) == None && PendingAck(s.m) == None && s'.started == s.started
  }

  predicate Outside(ev: Event) {
    ev.Request? || ev.Tick? || ev.CloseRequest? || ev.Lost?
  }

  lemma OutsideChange(s: Session, ev: Event) returns (c: Change)
    requires Enabled(s, ev) && Outside(ev) && Branch(s, ev).Stepped? && s.m.lastUsedTransferId == |s.started|
    ensures Changed(s, Branch(s, ev).session, c)
  {
    hide ReadStep, SendMessage, FeedSegment, KeepaliveInterval;
    c := if ev.CloseRequest? || (ev.Tick? && ev.idle && s.m.state.SessionEstablished?) then Stops
         else if ev.Request? && SendTransfer(s.m, ev.data).Started? then Starts(ev.data)
         else Same;
  }

  lemma ChangeKeepsLinks(s: Session, s': Session, c: Change, peer: Session, outbox: seq<Message>, inbox: seq<Message>)
    requires Changed(s, s', c)
    requires Inv(LinkOf(s, peer, outbox, inbox)) && Inv(LinkOf(peer, s, inbox, outbox))
    ensures Inv(LinkOf(s', peer, outbox, inbox)) && Inv(LinkOf(peer, s', inbox, outbox))
  {
    hide Inv, Live, PendingAck, Tracker, Segs, Acks;
    var l := LinkOf(s, peer, outbox, inbox);
    match c {
      case Same =>
      case Starts(data) => StartKeepsInv(l, data);
      case Stops =>
        SenderStopKeepsInv(l);
        ReceiverStopKeepsInv(LinkOf(peer, s, inbox, outbox));
    }
  }

  // ----- one side, and the system

  /** Transfers are numbered in the order they are started, and reported in that order, one at a time. */
  predicate Numbered(s: Session) {
    && s.m.lastUsedTransferId == |s.started|
    && (forall i :: 0 <= i < |s.reported| ==> s.reported[i] == i)
    && |s.started| == |s.reported| + (if s.resultFor.Some? then 1 else 0)
    && (s.resultFor.Some? ==> s.resultFor.value == |s.reported|)
  }

  predicate Settled(s: Session) {
    !s.ended && s.m.state.SessionEstablished? ==> s.resultFor.None?
  }

  predicate Announces(ch: seq<Message>) {
    forall i :: 0 <= i < |ch| && ch[i].MSessInit? ==>
      ch[i].init.segmentMru == MAX_SEGMENT_MRU && ch[i].init.transferMru == MAX_TRANSFER_MRU
  }

  predicate Side(s: Session) {
    Good(s) && Limits(s) && Numbered(s) && Settled(s)
  }

  /** What holds from x towards y, with xy and yx in flight. */
  ghost predicate Joined(x: Session, y: Session, xy: seq<Message>, yx: seq<Message>) {
    && Side(x) && Announces(xy) && Inv(LinkOf(x, y, xy, yx))
    && |x.reported| <= |y.delivered|
  }

  ghost predicate SystemInv(sys: System) {
    Joined(sys.a, sys.b, sys.ab, sys.ba) && Joined(sys.b, sys.a, sys.ba, sys.ab)
  }

  // ----- bookkeeping of one step

  lemma HandleDelivers(s: Session, result: DecodeResult, certificateOk: bool)
    requires HandleResult(s, result, certificateOk).Stepped?
    ensures |HandleResult(s, result, certificateOk).session.delivered| >= |s.delivered|
  {
    hide TakeSegment, ShouldUseTls;
    if result.Accepted? && result.message.MXferSegment? {
      TakeDelivers(s, result.message.segment);
    }
  }

  lemma TakeDelivers(s: Session, x: XferSegment)
    requires TakeSegment(s, x).Stepped?
    ensures |TakeSegment(s, x).session.delivered| >= |s.delivered|
  {
    hide SendAck, Receive;
  }

  /** The session data a decoded message can change. */
  lemma DecodeFrame(m: Machine, incoming: Incoming)
    requires DecodeMessage(m, incoming).Decodes?
    ensures var m' := DecodeMessage(m, incoming).machine;
            && m'.lastUsedTransferId == m.lastUsedTransferId && m'.myNodeId == m.myNodeId
            && m'.mySessInit == m.mySessInit && m'.myContactHeader == m.myContactHeader
            && (m'.peerSessInit == m.peerSessInit
                || (incoming.Arrived? && incoming.message.MSessInit? && m'.peerSessInit == Some(incoming.message.init)))
  {
  }

  lemma ReadBooks(s: Session, inbox: seq<Message>, ev: Event)
    requires ev.Read? && CanMove(s, inbox, ev) && ReadStep(s, ev.incoming, ev.certificateOk).Stepped?
    requires Numbered(s) && Limits(s) && Announces(inbox)
    ensures var s' := ReadStep(s, ev.incoming, ev.certificateOk).session;
            Numbered(s') && Limits(s') && s'.reported == s.reported && |s'.delivered| >= |s.delivered|
  {
    hide DecodeMessage, HandleResult, Enabled;
    var d := DecodeMessage(s.m, ev.incoming);
    DecodeFrame(s.m, ev.incoming);
    var s1 := AfterDecode(s, d.machine, ev.incoming);
    HandleFrame(s1, d.result, ev.certificateOk);
    HandleDelivers(s1, d.result, ev.certificateOk);
  }

  lemma SendFrame(m: Machine)
    requires SendMessage(m).Sends?
    ensures var o := SendMessage(m);
            && o.machine.lastUsedTransferId == m.lastUsedTransferId && o.machine.peerSessInit == m.peerSessInit
            && o.machine.myNodeId == m.myNodeId
            && (o.message.MSessInit? ==> o.message.init == OwnSessInit(m.myNodeId))
  {
    hide NextSegment;
  }

  lemma OtherBooks(s: Session, ev: Event)
    requires Enabled(s, ev) && !ev.Read? && Branch(s, ev).Stepped?
    requires Numbered(s) && Limits(s) && Settled(s)
    ensures var s' := Branch(s, ev).session;
            Numbered(s') && Limits(s') && s'.reported == s.reported && s'.delivered == s.delivered
    ensures Announces(Emitted(s, ev))
  {
    hide SendMessage, FeedSegment, TickStep, RequestStep, ReadStep;
    if ev.Write? && SendMessage(s.m).Sends? {
      SendFrame(s.m);
    } else if ev.WriteCancelled? && FeedSegment(s.m).Sends? {
      FeedOutcome(s.m);
    } else if ev.Tick? {
      TickBooks(s, ev.idle);
    } else if ev.Request? {
      RequestBooks(s, ev.data);
    }
  }

  lemma TickBooks(s: Session, idle: bool)
    requires TickStep(s, idle).Stepped? && Numbered(s) && Limits(s)
    ensures var s' := TickStep(s, idle).session;
            Numbered(s') && Limits(s') && s'.reported == s.reported && s'.delivered == s.delivered
  {
    hide KeepaliveInterval;
  }

  lemma RequestBooks(s: Session, data: bytes)
    requires RequestStep(s, data).Stepped? && Numbered(s) && Limits(s) && s.resultFor.None?
    ensures var s' := RequestStep(s, data).session;
            Numbered(s') && Limits(s') && s'.reported == s.reported && s'.delivered == s.delivered
  {
  }

  /** At the head of the loop the finished transfer, if any, is reported. */
  lemma SettleBooks(s: Session)
    requires Settle(s).Stepped? && Numbered(s)
    ensures var s' := Settle(s).session;
            && Numbered(s') && Settled(s')
            && (s'.reported == s.reported
                || (!s.ended && s.m.state.SessionEstablished? && |s'.reported| == |s.started|))
  {
    hide ShouldUseTls, KeepaliveInterval, ContactHeaderDone;
  }

  /** With nothing being sent, everything started has been delivered. */
  lemma IdleMeansDelivered(l: Link)
    requires Inv(l) && l.sndLive && l.tracker.None?
    ensures l.delivered == Whole(l.started)
  {
  }

  // ----- one step of the system

  lemma BranchKeepsLinks(s: Session, peer: Session, outbox: seq<Message>, inbox: seq<Message>, ev: Event)
    requires Side(s) && CanMove(s, inbox, ev)
    requires Inv(LinkOf(s, peer, outbox, inbox)) && Inv(LinkOf(peer, s, inbox, outbox))
    ensures Branch(s, ev).Stepped?
    ensures var s', outbox', inbox' := Branch(s, ev).session, outbox + Emitted(s, ev), Inbox(inbox, ev);
            Inv(LinkOf(s', peer, outbox', inbox')) && Inv(LinkOf(peer, s', inbox', outbox'))
  {
    hide Inv, LinkOf, Good, Enabled, Branch, ReadStep, Changed, SentParts, SendMessage, FeedSegment;
    assert outbox + [] == outbox;
    if ev.Read? {
      BranchRead(s, ev);
      ReadSteps(s, peer, outbox, inbox, ev);
      ReadKeepsSender(s, peer, outbox, inbox, ev);
      ReadKeepsReceiver(s, peer, outbox, inbox, ev);
    } else if Outside(ev) {
      OtherKeepsEquipped(s, ev);
      var c := OutsideChange(s, ev);
      ChangeKeepsLinks(s, Branch(s, ev).session, c, peer, outbox, inbox);
    } else {
      WriteSteps(s, ev);
      var msg := Emitted(s, ev)[0];
      assert Emitted(s, ev) == [msg];
      SentKeepsLinks(s, Branch(s, ev).session, msg, peer, outbox, inbox);
    }
  }

  lemma BranchBooks(s: Session, inbox: seq<Message>, ev: Event)
    requires Side(s) && CanMove(s, inbox, ev) && Announces(inbox) && Branch(s, ev).Stepped?
    ensures var s' := Branch(s, ev).session;
            Numbered(s') && Limits(s') && s'.reported == s.reported && |s'.delivered| >= |s.delivered|
    ensures Announces(Emitted(s, ev))
  {
    hide Good, Enabled, Branch, ReadStep, Numbered, Limits, SendMessage, FeedSegment;
    if ev.Read? {
      BranchRead(s, ev);
      ReadBooks(s, inbox, ev);
    } else {
      OtherBooks(s, ev);
    }
  }

  lemma BranchNotBad(s: Session, ev: Event)
    requires Good(s) && Enabled(s, ev) && Branch(s, ev).Stepped?
    ensures !BadInput(s, ev)
  {
    hide Good, Enabled, Branch, ReadStep, BadInput;
    BadInputKinds(s, ev);
    if ev.Read? {
      BranchRead(s, ev);
      ReadKeepsEquipped(s, ev.incoming, ev.certificateOk);
    } else if ev.Request? {
      OtherKeepsEquipped(s, ev);
    }
  }

  /** A step of x keeps the invariant of both directions. */
  lemma StepKeepsJoined(x: Session, y: Session, xy: seq<Message>, yx: seq<Message>, ev: Event)
    requires Joined(x, y, xy, yx) && Joined(y, x, yx, xy) && CanMove(x, yx, ev)
    ensures Step(x, ev).Stepped?
    ensures var x', xy', yx' := Step(x, ev).session, xy + Emitted(x, ev), Inbox(yx, ev);
            Joined(x', y, xy', yx') && Joined(y, x', yx', xy')
  {
    hide Inv, Good, Enabled, Branch, Settle, Numbered, SendMessage, FeedSegment, BadInput;
    BranchKeepsLinks(x, y, xy, yx, ev);
    BranchBooks(x, yx, ev);
    BranchNotBad(x, ev);
    StepKeepsGood(x, ev);
    var x1 := Branch(x, ev).session;
    SettleBooks(x1);
    SettleFrame(x1);
    if x1.m.state.SessionEstablished? {
      IdleMeansDelivered(LinkOf(x1, y, xy + Emitted(x, ev), Inbox(yx, ev)));
    }
  }

  /** Every move of a joined system is free of panics and keeps it joined. */
  lemma MoveKeepsSystem(sys: System, mv: Move)
    requires SystemInv(sys)
    ensures !MoveSystem(sys, mv).SystemPanics?
    ensures MoveSystem(sys, mv).Moved? ==> SystemInv(MoveSystem(sys, mv).system)
  {
    hide Joined, CanMove, Step, Emitted;
    if mv.left && CanMove(sys.a, sys.ba, mv.event) {
      StepKeepsJoined(sys.a, sys.b, sys.ab, sys.ba, mv.event);
    } else if !mv.left && CanMove(sys.b, sys.ab, mv.event) {
      StepKeepsJoined(sys.b, sys.a, sys.ba, sys.ab, mv.event);
    }
  }

  lemma {:induction false} RunKeepsSystem(sys: System, moves: seq<Move>)
    requires SystemInv(sys)
    ensures !RunSystem(sys, moves).SystemPanics?
    ensures RunSystem(sys, moves).Moved? ==> SystemInv(RunSystem(sys, moves).system)
    decreases |moves|
  {
    hide SystemInv, MoveSystem;
    if moves != [] {
      MoveKeepsSystem(sys, moves[0]);
      if MoveSystem(sys, moves[0]).Moved? {
        RunKeepsSystem(MoveSystem(sys, moves[0]).system, moves[1..]);
      }
    }
  }

  lemma ConnectIsJoined(nodeA: bytes, tlsA: bool, nodeB: bytes, tlsB: bool)
    ensures SystemInv(Connect(nodeA, tlsA, nodeB, tlsB))
  {
    hide Good;
    NewSessionIsGood(true, nodeA, tlsA);
    NewSessionIsGood(false, nodeB, tlsB);
  }

  /** Every transfer x reported as sent has been passed up by y exactly once, under its id, with exactly its bytes. */
  ghost predicate DeliveredOnce(x: Session, y: Session) {
    forall i :: 0 <= i < |x.reported| ==>
      && x.reported[i] == i < |x.started| && i < |y.delivered| && y.delivered[i] == Transfer(i, x.started[i])
      && (forall j :: 0 <= j < |y.delivered| && y.delivered[j].id == x.reported[i] ==> j == i)
  }

  lemma JoinedDelivers(x: Session, y: Session, xy: seq<Message>, yx: seq<Message>)
    requires Joined(x, y, xy, yx)
    ensures DeliveredOnce(x, y)
  {
    hide TrackerInv, Flow, Good, Segs, Acks;
    assert y.delivered <= Whole(x.started);
    forall i | 0 <= i < |y.delivered|
      ensures y.delivered[i] == Transfer(i, x.started[i])
    {
      assert y.delivered[i] == Whole(x.started)[i];
    }
  }

  /** End-to-end delivery, over every run of two connected endpoints with transfers both ways, keepalives, closing
      and loss of the connection at any point: a transfer reported as sent has been passed up by the other side
      exactly once with exactly those bytes; and no run panics. */
  lemma EndToEndDelivery(nodeA: bytes, tlsA: bool, nodeB: bytes, tlsB: bool, moves: seq<Move>)
    ensures var o := RunSystem(Connect(nodeA, tlsA, nodeB, tlsB), moves);
            && !o.SystemPanics?
            && (o.Moved? ==> DeliveredOnce(o.system.a, o.system.b) && DeliveredOnce(o.system.b, o.system.a))
  {
    hide Joined, Connect, RunSystem;
    ConnectIsJoined(nodeA, tlsA, nodeB, tlsB);
    RunKeepsSystem(Connect(nodeA, tlsA, nodeB, tlsB), moves);
    var o := RunSystem(Connect(nodeA, tlsA, nodeB, tlsB), moves);
    if o.Moved? {
      JoinedDelivers(o.system.a, o.system.b, o.system.ab, o.system.ba);
      JoinedDelivers(o.system.b, o.system.a, o.system.ba, o.system.ab);
    }
  }
}
