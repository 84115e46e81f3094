/** Conversations between two endpoints stay clean until one of them starts to terminate. */
module CleanRuns {
  import opened Bytes
  import opened Messages
  import opened Stream
  import opened StateMachine
  import opened Session
  import opened SessionSafety
  import opened SessionTermination
  import opened TwoSessions
  import opened Delivery
  import opened Exchange

  /** A SESS_TERM has been sent, received, or is about to be sent. */
  ghost predicate TermStarted(s: Session) {
    TermSent(s.log) || TermReceived(s.log) || Core(s.m.state).SendSessTerm?
  }

  /** What may be at position k of a conversation: the contact header, the session parameters, then segments,
      acknowledgements and keepalives. */
  predicate Expected(k: nat, msg: Message) {
    if k == 0 then msg.MContactHeader?
    else if k == 1 then msg.MSessInit?
    else msg.MXferSegment? || msg.MXferAck? || msg.MKeepalive?
  }

  predicate Shaped(ms: seq<Message>) {
    forall k :: 0 <= k < |ms| ==> Expected(k, ms[k])
  }

  /** How far a session is after sending n and receiving r messages. */
  predicate Phase(c: States, headerRead: bool, n: nat, r: nat) {
    && headerRead == (r >= 1)
    && match c
       case ActiveSendContactHeader | PassiveWaitContactHeader => n == 0 && r == 0
       case ActiveWaitContactHeader => n == 1 && r == 0
       case PassiveSendContactHeader => n == 0 && r == 1
       case ActiveSendSessInit | PassiveWaitSessInit => n == 1 && r == 1
       case ActiveWaitSessInit => n == 2 && r == 1
       case PassiveSendSessInit => n == 1 && r == 2
       case _ => Transferring(c) && n >= 2 && r >= 2
  }

  ghost predicate Clean(s: Session) {
    && Phase(Core(s.m.state), s.headerRead, |Sent(s.log)|, |Received(s.log)|)
    && Shaped(Sent(s.log))
  }

  // ----- the machine

  lemma SendPhase(m: Machine, headerRead: bool, n: nat, r: nat)
    requires Phase(Core(m.state), headerRead, n, r) && SendMessage(m).Sends?
    requires m.state.SendKeepalive? ==> !Handshaking(Core(m.state))
    ensures Expected(n, SendMessage(m).message) && Phase(Core(SendMessage(m).machine.state), headerRead, n + 1, r)
  {
    hide NextSegment, FeedSegment;
    if m.state.SendXferSegments? {
      FeedOutcome(m);
    }
  }

  lemma ReadPhase(m: Machine, headerRead: bool, n: nat, r: nat, msg: Message)
    requires Phase(Core(m.state), headerRead, n, r) && Readable(m.state) && Expected(r, msg)
    requires msg.MXferAck? ==> m.state.SendXferSegments? && msg.ack.id == m.state.tracker.transfer.id
                               && msg.ack.length <= m.state.tracker.pos
    ensures var d := DecodeMessage(m, Incoming.Arrived(msg));
            && d.Decodes? && d.result == Accepted(msg)
            && Phase(Core(d.machine.state), headerRead || msg.MContactHeader?, n, r + 1)
  {
    if m.state.PassiveWaitContactHeader? || m.state.ActiveWaitContactHeader? {
      hide DecodeArrived, DecodeGarbled;
    } else {
      hide DecodeContact;
    }
  }

  lemma AckPhase(m: Machine, m': Machine, headerRead: bool, n: nat, r: nat)
    requires AckQueued(m, m') && Phase(Core(m.state), headerRead, n, r)
    ensures Phase(Core(m'.state), headerRead, n, r)
  {
  }

  lemma MovesPhase(m: Machine, m': Machine, headerRead: bool, n: nat, r: nat)
    requires Moves(m, m') && Phase(Core(m.state), headerRead, n, r)
    ensures Core(m'.state).SendSessTerm? || Phase(Core(m'.state), headerRead, n, r)
  {
  }

  // ----- one step

  lemma ShapedAppend(ms: seq<Message>, m: Message)
    requires Shaped(ms) && Expected(|ms|, m)
    ensures Shaped(ms + [m])
  {
    hide Expected;
  }

  /** The message at the head of the channel is the one the reader expects, and is accepted. */
  lemma HeadAccepted(x: Session, y: Session, xy: seq<Message>, yx: seq<Message>)
    requires Joined(x, y, xy, yx) && Clean(x) && Shaped(Sent(y.log)) && Sent(y.log) == Received(x.log) + yx
    requires Readable(x.m.state) && yx != []
    ensures FromCodec(x.headerRead, Incoming.Arrived(yx[0])) && Expected(|Received(x.log)|, yx[0])
    ensures yx[0].MXferAck? ==>
              && x.m.state.SendXferSegments? && yx[0].ack.id == x.m.state.tracker.transfer.id
              && x.m.state.tracker.posAcked < yx[0].ack.length <= x.m.state.tracker.pos
    ensures var d := DecodeMessage(x.m, Incoming.Arrived(yx[0]));
            && d.Decodes? && d.result == Accepted(yx[0])
            && Phase(Core(d.machine.state), x.headerRead || yx[0].MContactHeader?, |Sent(x.log)|, |Received(x.log)| + 1)
  {
    hide Sent, Received, DecodeMessage, Side, Announces;
    assert Sent(y.log)[|Received(x.log)|] == yx[0];
    if yx[0].MXferAck? {
      AckNeedsTracker(x, y, xy, yx);
      AckIsExpected(x, y, xy, yx);
    }
    ReadPhase(x.m, x.headerRead, |Sent(x.log)|, |Received(x.log)|, yx[0]);
  }

  lemma AckNeedsTracker(x: Session, y: Session, xy: seq<Message>, yx: seq<Message>)
    requires Joined(x, y, xy, yx) && Readable(x.m.state) && Transferring(Core(x.m.state))
    requires yx != [] && yx[0].MXferAck?
    ensures x.m.state.SendXferSegments?
  {
    hide Side, Announces;
    SplitInbox(yx);
    if x.m.state.SessionEstablished? {
      IdleHasNoAcks(LinkOf(x, y, xy, yx));
    }
  }

  lemma ReadKeepsClean(x: Session, y: Session, xy: seq<Message>, yx: seq<Message>, ev: Event)
    requires Joined(x, y, xy, yx) && Clean(x) && Shaped(Sent(y.log)) && Sent(y.log) == Received(x.log) + yx
    requires ev.Read? && CanMove(x, yx, ev) && Branch(x, ev).Stepped?
    ensures var x' := Branch(x, ev).session;
            Phase(Core(x'.m.state), x'.headerRead, |Sent(x.log)|, |Received(x.log)| + 1)
  {
    hide Joined, DecodeMessage, HandleResult, Branch, Phase, AckQueued, Core, Shaped, Sent, Received;
    BranchRead(x, ev);
    HeadAccepted(x, y, xy, yx);
    var d := DecodeMessage(x.m, ev.incoming);
    var x1 := AfterDecode(x, d.machine, ev.incoming);
    HandleFrame(x1, d.result, ev.certificateOk);
    AckPhase(x1.m, Branch(x, ev).session.m, x1.headerRead, |Sent(x.log)|, |Received(x.log)| + 1);
  }

  lemma WriteKeepsClean(x: Session, ev: Event)
    requires Side(x) && Clean(x) && (ev.Write? || ev.WriteCancelled?) && Enabled(x, ev) && Branch(x, ev).Stepped?
    ensures |Emitted(x, ev)| == 1 && Expected(|Sent(x.log)|, Emitted(x, ev)[0])
    ensures var x' := Branch(x, ev).session;
            Phase(Core(x'.m.state), x'.headerRead, |Sent(x.log)| + 1, |Received(x.log)|)
  {
    hide SendMessage, FeedSegment, Sent, Received, Good, SentParts, Numbered;
    WriteSteps(x, ev);
    KeepaliveLater(x);
    if ev.Write? {
      SendPhase(x.m, x.headerRead, |Sent(x.log)|, |Received(x.log)|);
    } else {
      FeedOutcome(x.m);
    }
  }

  /** A step of x leaves x clean, or x has started to terminate. */
  lemma StepKeepsClean(x: Session, y: Session, xy: seq<Message>, yx: seq<Message>, ev: Event)
    requires Joined(x, y, xy, yx) && Clean(x) && Shaped(Sent(y.log)) && Sent(y.log) == Received(x.log) + yx
    requires CanMove(x, yx, ev) && Step(x, ev).Stepped?
    ensures Clean(Step(x, ev).session) || TermStarted(Step(x, ev).session)
  {
    hide Joined, Enabled, Branch, Settle, Phase, Shaped, Sent, Received, Emitted, Core, Side;
    StepBranches(x, ev);
    StepExchange(x, yx, ev);
    BranchLog(x, ev);
    SettleFrame(Branch(x, ev).session);
    assert Sent(x.log) + [] == Sent(x.log);
    JoinedSide(x, y, xy, yx);
    if ev.Read? {
      ReadKeepsClean(x, y, xy, yx, ev);
    } else if Outside(ev) {
      OutsideMoves(x, ev);
      OutsideHeader(x, ev);
      MovesPhase(x.m, Branch(x, ev).session.m, x.headerRead, |Sent(x.log)|, |Received(x.log)|);
    } else {
      WriteKeepsClean(x, ev);
      assert Emitted(x, ev) == [Emitted(x, ev)[0]];
      ShapedAppend(Sent(x.log), Emitted(x, ev)[0]);
      assert |Received(Step(x, ev).session.log) + yx| == |Received(x.log) + yx|;
    }
  }

  lemma JoinedSide(x: Session, y: Session, xy: seq<Message>, yx: seq<Message>)
    requires Joined(x, y, xy, yx)
    ensures Side(x)
  {
  }

  lemma OutsideHeader(s: Session, ev: Event)
    requires Outside(ev) && Branch(s, ev).Stepped?
    ensures Branch(s, ev).session.headerRead == s.headerRead
  {
    hide ReadStep, SendMessage, FeedSegment, TickStep, SendTransfer;
    if ev.Tick? {
      TickHeader(s, ev.idle);
    }
  }

  lemma TickHeader(s: Session, idle: bool)
    requires TickStep(s, idle).Stepped?
    ensures TickStep(s, idle).session.headerRead == s.headerRead
  {
    hide KeepaliveInterval, CloseConnection;
  }

  // ----- termination does not go away

  lemma LaterLog(log: seq<Entry>, more: seq<Entry>)
    ensures TermSent(log) ==> TermSent(log + more)
    ensures TermReceived(log) ==> TermReceived(log + more)
  {
    assert forall i :: 0 <= i < |log| ==> (log + more)[i] == log[i];
  }

  /** A queued SESS_TERM stays queued until it is written. */
  lemma QueuedTerm(s: Session, ev: Event)
    requires Core(s.m.state).SendSessTerm? && Enabled(s, ev) && Branch(s, ev).Stepped?
    ensures Core(Branch(s, ev).session.m.state).SendSessTerm?
            || (|Emitted(s, ev)| == 1 && Emitted(s, ev)[0].MSessTerm? && !ev.Read?)
  {
    hide ReadStep, KeepaliveInterval, SendTransfer, FeedSegment;
  }

  lemma StepKeepsTermStarted(s: Session, ev: Event)
    requires TermStarted(s) && Enabled(s, ev) && Step(s, ev).Stepped?
    ensures TermStarted(Step(s, ev).session)
  {
    hide Enabled, Branch, Settle, Emitted;
    StepBranches(s, ev);
    StepLog(s, ev);
    SettleFrame(Branch(s, ev).session);
    LaterLog(s.log, Added(s, ev));
    if Core(s.m.state).SendSessTerm? {
      QueuedTerm(s, ev);
      if Emitted(s, ev) != [] && !ev.Read? {
        var log' := Step(s, ev).session.log;
        assert log'[|s.log|] == Out(Emitted(s, ev)[0]);
        assert Emitted(s, ev)[0].MSessTerm? ==> OutTerm(log'[|s.log|]);
      }
    }
  }

  // ----- whole runs

  ghost predicate CleanSystem(sys: System) {
    && Exchanging(sys)
    && (TermStarted(sys.a) || TermStarted(sys.b) || (Clean(sys.a) && Clean(sys.b)))
  }

  lemma MoveKeepsClean(sys: System, mv: Move)
    requires CleanSystem(sys) && MoveSystem(sys, mv).Moved?
    ensures CleanSystem(MoveSystem(sys, mv).system)
  {
    hide Clean, TermStarted, Joined, Wire, Emitted, Step;
    MoveKeepsExchanging(sys, mv);
    CleanIsShaped(sys.a);
    CleanIsShaped(sys.b);
    var x := if mv.left then sys.a else sys.b;
    if TermStarted(x) {
      StepKeepsTermStarted(x, mv.event);
    } else if Clean(sys.a) && Clean(sys.b) {
      if mv.left {
        StepKeepsClean(sys.a, sys.b, sys.ab, sys.ba, mv.event);
      } else {
        StepKeepsClean(sys.b, sys.a, sys.ba, sys.ab, mv.event);
      }
    }
  }

  lemma CleanIsShaped(s: Session)
    ensures Clean(s) ==> Shaped(Sent(s.log))
  {
  }

  lemma {:induction false} RunKeepsClean(sys: System, moves: seq<Move>)
    requires CleanSystem(sys) && RunSystem(sys, moves).Moved?
    ensures CleanSystem(RunSystem(sys, moves).system)
    decreases |moves|
  {
    hide CleanSystem, MoveSystem;
    if moves != [] {
      MoveKeepsClean(sys, moves[0]);
      RunKeepsClean(MoveSystem(sys, moves[0]).system, moves[1..]);
    }
  }

  /** What the peer and the reader of a clean session see: no MSG_REJECT sent, queued or in flight; every message
      readable is one the codec can give and the machine accepts; an acknowledgement names the transfer being sent
      and covers more than before and no more than was sent; and no segment exceeds the receiver's limit. */
  ghost predicate Orderly(x: Session, y: Session, xy: seq<Message>, yx: seq<Message>) {
    && !Core(x.m.state).SendMsgReject?
    && (forall k :: 0 <= k < |Sent(x.log)| ==> !Sent(x.log)[k].MMsgReject?)
    && (forall k :: 0 <= k < |xy| ==>
          !xy[k].MMsgReject? && (xy[k].MXferSegment? ==> |xy[k].segment.data| <= MAX_SEGMENT_MRU))
    && (!x.ended && HasTracker(Core(x.m.state)) ==> Core(x.m.state).tracker.posAcked <= Core(x.m.state).tracker.pos)
    && (Readable(x.m.state) && yx != [] ==>
          && FromCodec(x.headerRead, Incoming.Arrived(yx[0]))
          && DecodeMessage(x.m, Incoming.Arrived(yx[0])).Decodes?
          && DecodeMessage(x.m, Incoming.Arrived(yx[0])).result == Accepted(yx[0])
          && (yx[0].MXferAck? ==>
                && x.m.state.SendXferSegments? && yx[0].ack.id == x.m.state.tracker.transfer.id
                && x.m.state.tracker.posAcked < yx[0].ack.length <= x.m.state.tracker.pos))
  }

  lemma NothingRejected(sent: seq<Message>, received: seq<Message>, flight: seq<Message>)
    requires Shaped(sent) && Conforming(sent, false) && sent == received + flight
    ensures forall k :: 0 <= k < |sent| ==> !sent[k].MMsgReject?
    ensures forall k :: 0 <= k < |flight| ==>
              !flight[k].MMsgReject? && (flight[k].MXferSegment? ==> |flight[k].segment.data| <= MAX_SEGMENT_MRU)
  {
    forall k | 0 <= k < |flight|
      ensures !flight[k].MMsgReject? && (flight[k].MXferSegment? ==> |flight[k].segment.data| <= MAX_SEGMENT_MRU)
    {
      assert flight[k] == sent[|received| + k];
    }
  }

  lemma TrackerInOrder(s: Session)
    requires Side(s) && !s.ended && HasTracker(Core(s.m.state))
    ensures Core(s.m.state).tracker.posAcked <= Core(s.m.state).tracker.pos
  {
  }

  lemma CleanIsOrderly(x: Session, y: Session, xy: seq<Message>, yx: seq<Message>)
    requires Joined(x, y, xy, yx) && Clean(x) && Clean(y) && Wire(x)
    requires Sent(x.log) == Received(y.log) + xy && Sent(y.log) == Received(x.log) + yx
    ensures Orderly(x, y, xy, yx)
  {
    hide Sent, Received, DecodeMessage, Joined, Shaped, Conforming, Side, FromCodec, Readable;
    JoinedSide(x, y, xy, yx);
    NothingRejected(Sent(x.log), Received(y.log), xy);
    if !x.ended && HasTracker(Core(x.m.state)) {
      TrackerInOrder(x);
    }
    if Readable(x.m.state) && yx != [] {
      HeadAccepted(x, y, xy, yx);
    }
  }

  /** Over every run of two endpoints, with transfers both ways, keepalives and connection loss: both directions are
      orderly until a side has started to terminate. */
  lemma ConformingRunsStayClean(nodeA: bytes, tlsA: bool, nodeB: bytes, tlsB: bool, moves: seq<Move>)
    requires NodeOk(nodeA) && NodeOk(nodeB)
    requires RunSystem(Connect(nodeA, tlsA, nodeB, tlsB), moves).Moved?
    ensures var sys := RunSystem(Connect(nodeA, tlsA, nodeB, tlsB), moves).system;
            || TermStarted(sys.a) || TermStarted(sys.b)
            || (Orderly(sys.a, sys.b, sys.ab, sys.ba) && Orderly(sys.b, sys.a, sys.ba, sys.ab))
  {
    hide RunSystem, Joined, Wire, Orderly, TermStarted;
    ConnectIsExchanging(nodeA, tlsA, nodeB, tlsB);
    var start := Connect(nodeA, tlsA, nodeB, tlsB);
    assert Clean(start.a) && Clean(start.b);
    RunKeepsClean(start, moves);
    var sys := RunSystem(start, moves).system;
    if !TermStarted(sys.a) && !TermStarted(sys.b) {
      CleanIsOrderly(sys.a, sys.b, sys.ab, sys.ba);
      CleanIsOrderly(sys.b, sys.a, sys.ba, sys.ab);
    }
  }
}
