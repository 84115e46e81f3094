/** What two connected sessions have exchanged: everything sent is received in order, and the bytes on the wire decode
    to exactly the messages that were sent. */
module Exchange {
  import opened Bytes
  import opened Messages
  import opened Stream
  import opened StateMachine
  import opened Session
  import opened SessionSafety
  import opened SessionTermination
  import opened TwoSessions
  import opened Delivery

  function Sent(log: seq<Entry>): seq<Message> {
    if log == [] then [] else Sent(log[..|log| - 1]) + if log[|log| - 1].Out? then [log[|log| - 1].message] else []
  }

  function Received(log: seq<Entry>): seq<Message> {
    if log == [] then [] else Received(log[..|log| - 1]) + if log[|log| - 1].In? then [log[|log| - 1].message] else []
  }

  lemma Appended(log: seq<Entry>, e: Entry)
    ensures Sent(log + [e]) == Sent(log) + if e.Out? then [e.message] else []
    ensures Received(log + [e]) == Received(log) + if e.In? then [e.message] else []
  {
    assert (log + [e])[..|log|] == log;
  }

  /** Nothing has been written yet. */
  predicate Silent(c: States) {
    c.ActiveSendContactHeader? || c.PassiveWaitContactHeader? || c.PassiveSendContactHeader?
  }

  predicate NodeOk(nodeId: bytes) {
    Utf8Valid(nodeId) && |nodeId| < 0x1_0000
  }

  ghost predicate Wire(s: Session) {
    && NodeOk(s.m.myNodeId)
    && Conforming(Sent(s.log), false)
    && (Silent(Core(s.m.state)) <==> Sent(s.log) == [])
  }

  ghost predicate Fifo(sys: System) {
    && Sent(sys.a.log) == Received(sys.b.log) + sys.ab
    && Sent(sys.b.log) == Received(sys.a.log) + sys.ba
  }

  // ----- one step

  /** The entry an event adds to the log, if any. */
  function Added(s: Session, ev: Event): seq<Entry> {
    if ev.Read? then (if ev.incoming.Arrived? then [In(ev.incoming.message)] else [])
    else if Emitted(s, ev) != [] then [Out(Emitted(s, ev)[0])] else []
  }

  lemma BranchLog(s: Session, ev: Event)
    requires Enabled(s, ev) && Branch(s, ev).Stepped?
    ensures Branch(s, ev).session.log == s.log + Added(s, ev)
    ensures ev.Read? ==> Emitted(s, ev) == []
    ensures |Emitted(s, ev)| <= 1
  {
    hide SendMessage, FeedSegment, DecodeMessage, HandleResult, KeepaliveInterval, SendTransfer;
    if ev.Read? {
      var d := DecodeMessage(s.m, ev.incoming);
      HandleFrame(AfterDecode(s, d.machine, ev.incoming), d.result, ev.certificateOk);
    }
  }

  lemma StepLog(s: Session, ev: Event)
    requires Enabled(s, ev) && Step(s, ev).Stepped?
    ensures Step(s, ev).session.log == s.log + Added(s, ev)
  {
    hide Enabled, Branch, Settle, Added;
    BranchLog(s, ev);
    SettleFrame(Branch(s, ev).session);
  }

  /** A step that is not a read adds what it emits to what was sent; a read adds the head of the inbox to what was
      received. */
  lemma StepExchange(s: Session, inbox: seq<Message>, ev: Event)
    requires CanMove(s, inbox, ev) && Step(s, ev).Stepped?
    ensures var s' := Step(s, ev).session;
            && Sent(s'.log) == Sent(s.log) + Emitted(s, ev)
            && Received(s'.log) + Inbox(inbox, ev) == Received(s.log) + inbox
  {
    hide Enabled, Step, Branch, SendMessage, FeedSegment, Sent, Received;
    StepLog(s, ev);
    var s' := Step(s, ev).session;
    assert Branch(s, ev).Stepped? by {
      StepBranches(s, ev);
    }
    BranchLog(s, ev);
    if Added(s, ev) == [] {
      assert s.log + [] == s.log && Sent(s.log) + [] == Sent(s.log);
    } else {
      var e := Added(s, ev)[0];
      assert s'.log == s.log + [e];
      Appended(s.log, e);
      assert Sent(s.log) + [] == Sent(s.log) && Received(s.log) + [] == Received(s.log);
      if ev.Read? {
        assert Received(s.log) + [inbox[0]] + inbox[1..] == Received(s.log) + inbox;
      } else {
        assert Emitted(s, ev) == [e.message];
      }
    }
  }

  lemma StepBranches(s: Session, ev: Event)
    requires Step(s, ev).Stepped?
    ensures Branch(s, ev).Stepped?
  {
    hide Branch, Settle;
  }

  lemma MoveKeepsFifo(sys: System, mv: Move)
    requires Fifo(sys) && MoveSystem(sys, mv).Moved?
    ensures Fifo(MoveSystem(sys, mv).system)
  {
    hide CanMove, Step, Emitted, Sent, Received, Inbox;
    if mv.left {
      StepExchange(sys.a, sys.ba, mv.event);
      var em := Emitted(sys.a, mv.event);
      assert Received(sys.b.log) + (sys.ab + em) == Received(sys.b.log) + sys.ab + em;
    } else {
      StepExchange(sys.b, sys.ab, mv.event);
      var em := Emitted(sys.b, mv.event);
      assert Received(sys.a.log) + (sys.ba + em) == Received(sys.a.log) + sys.ba + em;
    }
  }

  // ----- what is sent can be decoded

  lemma SegmentFits(tt: TransferTracker, mru: u64)
    requires tt.pos <= |tt.transfer.data| && mru <= MAX_SEGMENT_MRU
    ensures Sendable(MXferSegment(NextSegment(tt, mru)))
  {
  }

  lemma SendWire(m: Machine)
    requires SendMessage(m).Sends? && NodeOk(m.myNodeId)
    requires m.peerSessInit.Some? ==> m.peerSessInit.value.segmentMru == MAX_SEGMENT_MRU
    requires m.state.SendKeepalive? ==> !Handshaking(Core(m.state))
    ensures var o := SendMessage(m);
            && Sendable(o.message) && (o.message.MContactHeader? <==> Silent(Core(m.state)))
            && !Silent(Core(o.machine.state)) && o.machine.myNodeId == m.myNodeId
  {
    hide NextSegment, Utf8Valid;
    if m.state.SendXferSegments? {
      FeedWire(m);
    }
  }

  lemma FeedWire(m: Machine)
    requires m.state.SendXferSegments? && FeedSegment(m).Sends?
    requires m.peerSessInit.Some? ==> m.peerSessInit.value.segmentMru == MAX_SEGMENT_MRU
    ensures Sendable(FeedSegment(m).message) && FeedSegment(m).message.MXferSegment?
  {
    hide NextSegment, Sendable;
    SegmentFits(m.state.tracker, m.peerSessInit.value.segmentMru);
  }

  lemma DecodeSilent(m: Machine, incoming: Incoming)
    requires Readable(m.state) && DecodeMessage(m, incoming).Decodes?
    ensures Silent(Core(DecodeMessage(m, incoming).machine.state)) <==> Silent(Core(m.state))
  {
    if m.state.PassiveWaitContactHeader? || m.state.ActiveWaitContactHeader? {
      hide DecodeArrived, DecodeGarbled;
    } else {
      hide DecodeContact;
    }
  }

  lemma ReadSilent(s: Session, ev: Event)
    requires ev.Read? && Enabled(s, ev) && Branch(s, ev).Stepped?
    ensures var m' := Branch(s, ev).session.m;
            (Silent(Core(m'.state)) <==> Silent(Core(s.m.state))) && m'.myNodeId == s.m.myNodeId
  {
    hide DecodeMessage, HandleResult, AckQueued, Branch, Silent;
    BranchRead(s, ev);
    var d := DecodeMessage(s.m, ev.incoming);
    DecodeSilent(s.m, ev.incoming);
    DecodeFrame(s.m, ev.incoming);
    HandleFrame(AfterDecode(s, d.machine, ev.incoming), d.result, ev.certificateOk);
    AckSilent(d.machine, Branch(s, ev).session.m);
  }

  lemma AckSilent(m: Machine, m': Machine)
    requires AckQueued(m, m')
    ensures (Silent(Core(m'.state)) <==> Silent(Core(m.state))) && m'.myNodeId == m.myNodeId
  {
  }

  /** What a request, a tick or a close can do to the machine: nothing below the keepalives, or, once established,
      start a transfer or the termination. */
  predicate Moves(m: Machine, m': Machine) {
    && m'.myNodeId == m.myNodeId
    && (Core(m'.state) == Core(m.state)
        || (m.state.SessionEstablished? && (Core(m'.state).SendSessTerm? || HasTracker(Core(m'.state)))))
  }

  lemma TickMoves(s: Session, idle: bool)
    requires TickStep(s, idle).Stepped?
    ensures Moves(s.m, TickStep(s, idle).session.m)
  {
    hide KeepaliveInterval;
  }

  lemma RequestMoves(s: Session, data: bytes)
    requires RequestStep(s, data).Stepped? && s.m.state.SessionEstablished?
    ensures Moves(s.m, RequestStep(s, data).session.m)
  {
  }

  lemma OutsideMoves(s: Session, ev: Event)
    requires Outside(ev) && Enabled(s, ev) && Branch(s, ev).Stepped?
    ensures Moves(s.m, Branch(s, ev).session.m) && Emitted(s, ev) == []
  {
    hide ReadStep, SendMessage, FeedSegment, TickStep, RequestStep;
    if ev.Tick? {
      TickMoves(s, ev.idle);
    } else if ev.Request? {
      RequestMoves(s, ev.data);
    }
  }

  lemma WriteWire(s: Session, ev: Event)
    requires Side(s) && Wire(s) && (ev.Write? || ev.WriteCancelled?) && Enabled(s, ev) && Branch(s, ev).Stepped?
    ensures |Emitted(s, ev)| == 1 && Sendable(Emitted(s, ev)[0])
    ensures Emitted(s, ev)[0].MContactHeader? <==> Sent(s.log) == []
    ensures !Silent(Core(Branch(s, ev).session.m.state)) && NodeOk(Branch(s, ev).session.m.myNodeId)
  {
    hide SendMessage, FeedSegment, Sent, Conforming, NodeOk, Sendable, Fit, Numbered, SentParts;
    WriteSteps(s, ev);
    KeepaliveLater(s);
    if ev.Write? {
      SendWire(s.m);
    } else {
      FeedWire(s.m);
      FeedOutcome(s.m);
    }
  }

  lemma KeepaliveLater(s: Session)
    requires Good(s) && !s.ended
    ensures s.m.state.SendKeepalive? ==> !Handshaking(Core(s.m.state))
  {
  }

  lemma MovesSilent(m: Machine, m': Machine)
    requires Moves(m, m')
    ensures Silent(Core(m'.state)) <==> Silent(Core(m.state))
  {
  }

  lemma ConformingAppend(ms: seq<Message>, m: Message)
    requires Conforming(ms, false) && Sendable(m) && (m.MContactHeader? <==> ms == [])
    ensures Conforming(ms + [m], false)
  {
    hide Sendable;
  }

  lemma StepKeepsWire(s: Session, inbox: seq<Message>, ev: Event)
    requires Side(s) && Wire(s) && CanMove(s, inbox, ev) && Step(s, ev).Stepped?
    ensures Wire(Step(s, ev).session)
  {
    hide Side, Enabled, Branch, Settle, Sent, Conforming, NodeOk, Silent, Sendable, Core;
    StepBranches(s, ev);
    StepExchange(s, inbox, ev);
    SettleFrame(Branch(s, ev).session);
    assert Sent(s.log) + [] == Sent(s.log);
    if ev.Read? {
      BranchLog(s, ev);
      ReadSilent(s, ev);
    } else if Outside(ev) {
      OutsideMoves(s, ev);
      MovesSilent(s.m, Branch(s, ev).session.m);
    } else {
      WriteWire(s, ev);
      ConformingAppend(Sent(s.log), Emitted(s, ev)[0]);
    }
  }

  // ----- whole runs

  ghost predicate Exchanging(sys: System) {
    SystemInv(sys) && Fifo(sys) && Wire(sys.a) && Wire(sys.b)
  }

  lemma MoveKeepsExchanging(sys: System, mv: Move)
    requires Exchanging(sys) && MoveSystem(sys, mv).Moved?
    ensures Exchanging(MoveSystem(sys, mv).system)
  {
    hide Fifo, Wire, Side, CanMove, Step, Emitted;
    MoveKeepsSystem(sys, mv);
    MoveKeepsFifo(sys, mv);
    if mv.left {
      StepKeepsWire(sys.a, sys.ba, mv.event);
    } else {
      StepKeepsWire(sys.b, sys.ab, mv.event);
    }
  }

  lemma {:induction false} RunKeepsExchanging(sys: System, moves: seq<Move>)
    requires Exchanging(sys) && RunSystem(sys, moves).Moved?
    ensures Exchanging(RunSystem(sys, moves).system)
    decreases |moves|
  {
    hide Exchanging, MoveSystem;
    if moves != [] {
      MoveKeepsExchanging(sys, moves[0]);
      RunKeepsExchanging(MoveSystem(sys, moves[0]).system, moves[1..]);
    }
  }

  lemma ConnectIsExchanging(nodeA: bytes, tlsA: bool, nodeB: bytes, tlsB: bool)
    requires NodeOk(nodeA) && NodeOk(nodeB)
    ensures Exchanging(Connect(nodeA, tlsA, nodeB, tlsB))
  {
    hide SystemInv;
    ConnectIsJoined(nodeA, tlsA, nodeB, tlsB);
  }

  /** In every run, the bytes a side has written, however much of them is still under way, decode to exactly what it
      sent: first what the other side has received, then what is in flight. */
  lemma WireCarriesMessages(nodeA: bytes, tlsA: bool, nodeB: bytes, tlsB: bool, moves: seq<Move>)
    requires NodeOk(nodeA) && NodeOk(nodeB)
    requires RunSystem(Connect(nodeA, tlsA, nodeB, tlsB), moves).Moved?
    ensures var sys := RunSystem(Connect(nodeA, tlsA, nodeB, tlsB), moves).system;
            && Conforming(Sent(sys.a.log), false) && Conforming(Sent(sys.b.log), false)
            && Drain(START, EncodeAll(Sent(sys.a.log))).messages == Received(sys.b.log) + sys.ab
            && Drain(START, EncodeAll(Sent(sys.b.log))).messages == Received(sys.a.log) + sys.ba
  {
    hide Connect, RunSystem, SystemInv, Drain, EncodeAll, Sent, Received, Sendable;
    ConnectIsExchanging(nodeA, tlsA, nodeB, tlsB);
    RunKeepsExchanging(Connect(nodeA, tlsA, nodeB, tlsB), moves);
    var sys := RunSystem(Connect(nodeA, tlsA, nodeB, tlsB), moves).system;
    StreamRoundTrip(Sent(sys.a.log));
    StreamRoundTrip(Sent(sys.b.log));
  }
}
