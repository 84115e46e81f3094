/** What the events of a session lead to, told by the log: its end, its requests, its timer, and how a session comes
    about and is closed. */
module SessionEvents {
  import opened Bytes
  import opened Messages
  import opened StateMachine
  import opened Session
  import opened SessionSafety
  import opened SessionTermination
  import opened Rulebook
  import opened RuledSessions

  /** A session some run from a new one can be in. */
  ghost predicate Reached(s: Session, me: Me) {
    exists evs :: Run(Fresh(me), evs) == Ran(s)
  }

  lemma ReachedIsRuled(s: Session, me: Me)
    requires Reached(s, me)
    ensures Ruled(s, me) && Good(s)
  {
    hide Run, Ruled, Good, Fresh;
    var evs :| Run(Fresh(me), evs) == Ran(s);
    FreshIsRuled(me);
    RunRuled(Fresh(me), me, evs);
  }

  // ----- how a session ends

  predicate ReadsMessage(ev: Event) {
    ev.Read? && ev.incoming.Arrived?
  }

  /** What ends a session: the connection is lost, the log is over, what was read makes no sense, the certificate of
      the peer is not the one of the node it says it is, or more was acknowledged than was written. */
  predicate Fatal(s: Session, me: Me, b: Book, b': Book, ev: Event) {
    || ev.Lost?
    || b'.over
    || (ev.Read? && ev.incoming.Garbled? && !ev.incoming.error.InvalidMessageType?)
    || (ReadsMessage(ev) && ev.incoming.message.MSessInit? && b.initIn.None? && !ev.certificateOk && me.canTls && b.peerTls)
    || (ReadsMessage(ev) && ev.incoming.message.MXferAck? && HasTracker(s.m.state)
        && ev.incoming.message.ack.length > s.m.state.tracker.pos)
  }

  lemma GarbledEnds(s: Session, e: CodecError, certificateOk: bool)
    requires Readable(s.m.state) && FromCodec(s.headerRead, Garbled(e)) && ReadStep(s, Garbled(e), certificateOk).Stepped?
    requires !s.ended
    ensures ReadStep(s, Garbled(e), certificateOk).session.ended <==> !e.InvalidMessageType?
    ensures ReadStep(s, Garbled(e), certificateOk).session.log == s.log
  {
  }

  lemma HandleEnds(s: Session, result: DecodeResult, certificateOk: bool)
    requires HandleResult(s, result, certificateOk).Stepped? && !s.ended
    ensures HandleResult(s, result, certificateOk).session.ended <==>
            || (result.Accepted? && result.message.MMsgReject?)
            || (result.Accepted? && result.message.MSessInit? && ShouldUseTls(s.m) == Some(true) && !certificateOk)
            || EndsSession(result)
  {
    hide Receive, SendAck, ShouldUseTls;
  }

  lemma ResultOf(m: Machine, msg: Message)
    requires Readable(m.state) && DecodeMessage(m, Arrived(msg)).Decodes?
    ensures var d := DecodeMessage(m, Arrived(msg));
            && (d.result.Accepted? ==> d.result.message == msg)
            && (msg.MMsgReject? ==> d.result.Accepted? || !ContactHeaderDone(m.state))
            && (msg.MSessInit? && ContactHeaderDone(m.state) ==>
                  && (d.result.Accepted? <==> m.state.PassiveWaitSessInit? || m.state.ActiveWaitSessInit?)
                  && d.machine.myContactHeader == m.myContactHeader && d.machine.peerContactHeader == m.peerContactHeader)
            && (EndsSession(d.result) <==>
                  msg.MXferAck? && HasTracker(m.state) && msg.ack.length > m.state.tracker.pos)
  {
  }

  lemma TlsKnownWhenHandled(s: Session, certificateOk: bool, msg: Message)
    requires msg.MSessInit? && HandleResult(s, Accepted(msg), certificateOk).Stepped?
    ensures ShouldUseTls(s.m).Some?
  {
    hide ShouldUseTls;
  }

  /** Reading a message ends the session at once if it is a rejection, a SESS_INIT behind which the peer is not who it
      says, or an acknowledgement of too much. */
  lemma MessageEnds(s: Session, me: Me, b: Book, msg: Message, certificateOk: bool)
    requires Readable(s.m.state) && Introduced(s.m, me, b) && !s.ended
    requires FromCodec(s.headerRead, Arrived(msg)) && ReadStep(s, Arrived(msg), certificateOk).Stepped?
    requires s.m.state.PassiveWaitSessInit? || s.m.state.ActiveWaitSessInit? <==> b.headerIn && b.initIn.None?
    requires ContactHeaderDone(s.m.state) == s.headerRead == b.headerIn
    ensures ReadStep(s, Arrived(msg), certificateOk).session.ended <==>
            || msg.MMsgReject?
            || (msg.MSessInit? && b.initIn.None? && !certificateOk && me.canTls && b.peerTls)
            || (msg.MXferAck? && HasTracker(s.m.state) && msg.ack.length > s.m.state.tracker.pos)
  {
    hide DecodeMessage, HandleResult, ShouldUseTls, Introduced, EndsSession, ContactHeaderDone, GetInterests;
    var d := DecodeMessage(s.m, Arrived(msg));
    var s1 := AfterDecode(s, d.machine, Arrived(msg));
    ResultOf(s.m, msg);
    HandleEnds(s1, d.result, certificateOk);
    AcceptedGoesOn(msg);
    if msg.MSessInit? && d.result.Accepted? {
      TlsKnownWhenHandled(s1, certificateOk, msg);
      SameTls(s.m, d.machine, me, b);
    }
  }

  lemma AcceptedGoesOn(msg: Message)
    ensures !EndsSession(Accepted(msg))
  {
  }

  lemma SameTls(m: Machine, m': Machine, me: Me, b: Book)
    requires Introduced(m, me, b) && m'.myContactHeader == m.myContactHeader && m'.peerContactHeader == m.peerContactHeader
    ensures ShouldUseTls(m').Some? ==> ShouldUseTls(m') == Some(me.canTls && b.peerTls)
  {
  }

  lemma SettleEnds(s: Session)
    requires Settle(s).Stepped?
    ensures Settle(s).session.ended <==> s.ended || s.m.state.ConnectionClose?
  {
    hide ShouldUseTls, KeepaliveInterval;
  }

  /** The log is over exactly if the connection is to be closed. */
  lemma ClosedIsOver(s: Session, me: Me)
    requires Ruled(s, me) && Equipped(s) && !s.ended
    ensures After(me, s.log).value.over <==> s.m.state.ConnectionClose?
  {
    hide After, OwnInit, OwnHeader, SendsAs, Introduced;
  }

  lemma WriteDoesNotEnd(s: Session, ev: Event)
    requires !s.ended && !ev.Read? && Branch(s, ev).Stepped?
    ensures Branch(s, ev).session.ended <==> ev.Lost?
  {
    hide SendMessage, FeedSegment, SendTransfer, CloseConnection, KeepaliveInterval;
  }

  /** Where a session that waits for SESS_INIT is, by the log. */
  lemma WaitsForInit(s: Session, me: Me, b: Book)
    requires Matches(s.m, me, b) && Readable(s.m.state)
    ensures s.m.state.PassiveWaitSessInit? || s.m.state.ActiveWaitSessInit? <==> b.headerIn && b.initIn.None?
  {
    hide Introduced, NoTransfers, SendsAs, OwnInit, OwnHeader;
  }

  lemma ReadableHeader(s: Session, me: Me, b: Book)
    requires Matches(s.m, me, b) && Readable(s.m.state)
    ensures ContactHeaderDone(s.m.state) == b.headerIn
  {
    hide Introduced, NoTransfers, SendsAs, OwnInit, OwnHeader;
  }

  lemma BranchEnds(s: Session, me: Me, ev: Event)
    requires Ruled(s, me) && Good(s) && Enabled(s, ev) && Branch(s, ev).Stepped?
    requires After(me, Branch(s, ev).session.log).Some?
    ensures var b, s' := After(me, s.log).value, Branch(s, ev).session;
            && (s'.ended ==> Fatal(s, me, b, After(me, s'.log).value, ev))
            && (Fatal(s, me, b, After(me, s'.log).value, ev) ==> s'.ended || After(me, s'.log).value.over)
  {
    hide After, Matches, Branch, ReadStep, Fit, KeepaliveFit, FromCodec, GetInterests;
    var b := After(me, s.log).value;
    if ev.Read? {
      BranchRead(s, ev);
      HeaderAgrees(s, me, b);
      if ev.incoming.Garbled? {
        GarbledEnds(s, ev.incoming.error, ev.certificateOk);
      } else {
        WaitsForInit(s, me, b);
        ReadableHeader(s, me, b);
        MatchesIntroduced(s.m, me, b);
        MessageEnds(s, me, b, ev.incoming.message, ev.certificateOk);
        if ev.incoming.message.MMsgReject? {
          RejectIsOver(s, me, ev);
        }
      }
    } else {
      WriteDoesNotEnd(s, ev);
    }
  }

  lemma MatchesIntroduced(m: Machine, me: Me, b: Book)
    requires Matches(m, me, b)
    ensures Introduced(m, me, b)
  {
  }

  lemma RejectIsOver(s: Session, me: Me, ev: Event)
    requires ReadsMessage(ev) && ev.incoming.message.MMsgReject? && ReadStep(s, ev.incoming, ev.certificateOk).Stepped?
    requires After(me, s.log).Some? && After(me, ReadStep(s, ev.incoming, ev.certificateOk).session.log).Some?
    ensures After(me, ReadStep(s, ev.incoming, ev.certificateOk).session.log).value.over
  {
    hide After, DecodeMessage, HandleResult, AckQueued;
    var d := DecodeMessage(s.m, ev.incoming);
    HandleFrame(AfterDecode(s, d.machine, ev.incoming), d.result, ev.certificateOk);
    AfterOneMore(me, s.log, In(ev.incoming.message));
  }

  /** Over every run against any peer: a session ends if and only if one of these happens. */
  lemma SessionEndsExactly(s: Session, me: Me, ev: Event)
    requires Reached(s, me) && Enabled(s, ev) && Step(s, ev).Stepped?
    ensures var s' := Step(s, ev).session;
            && After(me, s.log).Some? && After(me, s'.log).Some?
            && (s'.ended <==> Fatal(s, me, After(me, s.log).value, After(me, s'.log).value, ev))
  {
    hide After, Matches, Good, Enabled, Branch, Settle, Reached, Equipped, Fatal;
    ReachedIsRuled(s, me);
    StepRuled(s, me, ev);
    BranchRuled(s, me, ev);
    var s1 := Branch(s, ev).session;
    SettleFrame(s1);
    BranchEnds(s, me, ev);
    SettleEnds(s1);
    var b' := After(me, s1.log).value;
    if !s1.ended {
      ClosedIsOver(s1, me);
    }
    assert b'.over ==> Fatal(s, me, After(me, s.log).value, b', ev) by {
      OverIsFatal(s, me, After(me, s.log).value, b', ev);
    }
  }

  lemma OverIsFatal(s: Session, me: Me, b: Book, b': Book, ev: Event)
    ensures b'.over ==> Fatal(s, me, b, b', ev)
  {
  }

  lemma BranchRuled(s: Session, me: Me, ev: Event)
    requires Ruled(s, me) && Good(s) && Enabled(s, ev) && Step(s, ev).Stepped?
    ensures Ruled(Branch(s, ev).session, me) && (Branch(s, ev).session.ended || Equipped(Branch(s, ev).session))
  {
    hide Ruled, Good, Enabled, Branch, Settle, ReadStep, Equipped;
    if ev.Read? {
      BranchRead(s, ev);
      ReadRuled(s, me, ev.incoming, ev.certificateOk);
      ReadKeepsEquipped(s, ev.incoming, ev.certificateOk);
    } else if ev.Write? || ev.WriteCancelled? {
      WriteRuled(s, me, ev.WriteCancelled?);
      WriteKeepsEquipped(s, ev.WriteCancelled?);
    } else {
      OtherRuled(s, me, ev);
      OtherKeepsEquipped(s, ev);
    }
  }

  // ----- requests and the timer

  /** A transfer is started if and only if the peer announced that it takes so many bytes; a refused request changes
      nothing but what the head of the loop does. */
  lemma RequestsRespectThePeer(s: Session, me: Me, data: bytes)
    requires Reached(s, me) && Enabled(s, Request(data)) && Step(s, Request(data)).Stepped?
    ensures var s', b := Step(s, Request(data)).session, After(me, s.log);
            && b.Some? && b.value.initIn.Some? && s'.log == s.log
            && s'.started == if |data| <= b.value.initIn.value.transferMru then s.started + [data] else s.started
  {
    hide After, Matches, Good, Fresh, Run, Settle, Reached, GetInterests;
    ReachedIsRuled(s, me);
    OwingWrites(s, me);
    SettleFrame(RequestStep(s, data).session);
  }

  /** Once the session was established, the timer runs if and only if the peer asked for keepalives. */
  predicate TimerSet(s: Session) {
    if s.keepaliveInitialized then s.m.peerSessInit.Some? && (s.timer <==> s.m.peerSessInit.value.keepaliveInterval > 0)
    else s.timer
  }

  predicate OwnIntervalKnown(m: Machine) {
    m.mySessInit.Some? ==> m.mySessInit.value.keepaliveInterval == 60
  }

  /** The interval is the smaller of the two announced, and none if the peer wants none. */
  lemma IntervalIsSmaller(m: Machine)
    requires m.state.SessionEstablished? && m.mySessInit.Some? && m.peerSessInit.Some? && OwnIntervalKnown(m)
    ensures var k := m.peerSessInit.value.keepaliveInterval;
            KeepaliveInterval(m) == Some(if k == 0 then None else Some(if k < 60 then k else 60))
  {
  }

  lemma DecodeKeepsPeer(m: Machine, headerRead: bool, keepalives: bool, incoming: Incoming)
    requires Fit(m, headerRead) && KeepaliveFit(m, keepalives) && DecodeMessage(m, incoming).Decodes?
    ensures keepalives ==> DecodeMessage(m, incoming).machine.peerSessInit == m.peerSessInit
  {
  }

  lemma HandleKeepsTimer(s: Session, result: DecodeResult, certificateOk: bool)
    requires HandleResult(s, result, certificateOk).Stepped?
    ensures var s' := HandleResult(s, result, certificateOk).session;
            s'.keepaliveInitialized == s.keepaliveInitialized && s'.timer == s.timer
  {
    hide ShouldUseTls, Receive, SendAck;
  }

  lemma SendKeepsPeer(m: Machine)
    ensures SendMessage(m).Sends? ==> SendMessage(m).machine.peerSessInit == m.peerSessInit
    ensures m.state.SendXferSegments? && FeedSegment(m).Sends? ==> FeedSegment(m).machine.peerSessInit == m.peerSessInit
  {
    hide NextSegment, SegmentEnd;
  }

  /** Only the head of the loop sets the timer, and an introduction stays. */
  lemma BranchKeepsTimer(s: Session, ev: Event)
    requires Good(s) && !s.ended && Branch(s, ev).Stepped?
    ensures var s' := Branch(s, ev).session;
            && s'.keepaliveInitialized == s.keepaliveInitialized && s'.timer == s.timer
            && (s.keepaliveInitialized ==> s'.m.peerSessInit == s.m.peerSessInit)
  {
    hide DecodeMessage, SendMessage, FeedSegment, KeepaliveInterval, HandleResult, Fit, KeepaliveFit, AckQueued;
    if ev.Read? {
      DecodeKeepsPeer(s.m, s.headerRead, s.keepaliveInitialized, ev.incoming);
      var d := DecodeMessage(s.m, ev.incoming);
      var s1 := AfterDecode(s, d.machine, ev.incoming);
      HandleKeepsTimer(s1, d.result, ev.certificateOk);
      HandleFrame(s1, d.result, ev.certificateOk);
      QueuedKeepsPeer(s1.m, HandleResult(s1, d.result, ev.certificateOk).session.m);
    } else {
      SendKeepsPeer(s.m);
    }
  }

  lemma QueuedKeepsPeer(m: Machine, m': Machine)
    requires AckQueued(m, m')
    ensures m'.peerSessInit == m.peerSessInit
  {
  }

  lemma SettleSetsTimer(s: Session)
    requires TimerSet(s) && OwnIntervalKnown(s.m) && Settle(s).Stepped?
    ensures TimerSet(Settle(s).session)
  {
    hide ShouldUseTls;
  }

  lemma OwnInterval(s: Session, me: Me)
    requires Ruled(s, me) && !s.ended
    ensures OwnIntervalKnown(s.m)
  {
    hide After, HandshakeAt, TransferAt, ClosingAt;
  }

  lemma StepSetsTimer(s: Session, me: Me, ev: Event)
    requires Ruled(s, me) && Good(s) && TimerSet(s) && Enabled(s, ev) && Step(s, ev).Stepped?
    ensures TimerSet(Step(s, ev).session)
  {
    hide Ruled, Good, Branch, Settle;
    BranchKeepsTimer(s, ev);
    BranchRuled(s, me, ev);
    var s1 := Branch(s, ev).session;
    if s1.ended {
      EndedSettles(s1);
    } else {
      OwnInterval(s1, me);
      SettleSetsTimer(s1);
    }
  }

  lemma EndedSettles(s: Session)
    requires s.ended
    ensures Settle(s) == Stepped(s)
  {
  }

  lemma {:induction false} RunSetsTimer(s: Session, me: Me, evs: seq<Event>)
    requires Ruled(s, me) && Good(s) && TimerSet(s) && Run(s, evs).Ran?
    ensures TimerSet(Run(s, evs).session)
    decreases |evs|
  {
    hide Ruled, Good, TimerSet, Enabled, Step;
    if evs != [] {
      StepKeepsGood(s, evs[0]);
      StepRuled(s, me, evs[0]);
      StepSetsTimer(s, me, evs[0]);
      RunSetsTimer(Step(s, evs[0]).session, me, evs[1..]);
    }
  }

  /** Over every run against any peer: once keepalives may be sent, the timer ticks if and only if the peer announced
      an interval other than 0, and while the session is established the interval is the smaller of 60 and that. */
  lemma KeepalivesAsAgreed(s: Session, me: Me)
    requires Reached(s, me) && !s.ended && s.keepaliveInitialized
    ensures var b := After(me, s.log);
            && b.Some? && b.value.initIn.Some?
            && var k := b.value.initIn.value.keepaliveInterval;
            && (forall idle :: Enabled(s, Tick(idle)) <==> k > 0)
            && (s.m.state.SessionEstablished? ==>
                  KeepaliveInterval(s.m) == Some(if k == 0 then None else Some(if k < 60 then k else 60)))
  {
    hide After, Matches, Good, Fresh, Run, Reached, GetInterests, KeepaliveInterval;
    ReachedIsRuled(s, me);
    OwingWrites(s, me);
    OwnInterval(s, me);
    ReachedSetsTimer(s, me);
    if s.m.state.SessionEstablished? {
      EstablishedKnows(s);
      IntervalIsSmaller(s.m);
    }
  }

  lemma EstablishedKnows(s: Session)
    requires Good(s) && !s.ended && s.m.state.SessionEstablished?
    ensures s.m.mySessInit.Some? && s.m.peerSessInit.Some?
  {
  }

  lemma ReachedSetsTimer(s: Session, me: Me)
    requires Reached(s, me)
    ensures TimerSet(s)
  {
    hide Run, Ruled, Good, TimerSet;
    var evs :| Run(Fresh(me), evs) == Ran(s);
    FreshIsRuled(me);
    FreshTimer(me);
    RunSetsTimer(Fresh(me), me, evs);
  }

  lemma FreshTimer(me: Me)
    ensures TimerSet(Fresh(me))
  {
  }

  // ----- how a session opens and closes

  lemma RunCons(s: Session, ev: Event, evs: seq<Event>)
    requires Enabled(s, ev) && Step(s, ev).Stepped?
    ensures Run(s, [ev] + evs) == Run(Step(s, ev).session, evs)
  {
    hide Enabled, Step;
    assert ([ev] + evs)[1..] == evs;
  }

  /** An established session that is told to close says so with reason 5. */
  lemma ClosesOnRequest(s: Session, me: Me)
    requires Reached(s, me) && !s.ended && s.m.state.SessionEstablished?
    ensures var o := Run(s, [CloseRequest, Write]); o.Ran? && o.session.log == s.log + [Out(MSessTerm(false, 5))]
  {
    hide After, Good, Fresh, Run, Reached, KeepaliveInterval, ShouldUseTls;
    ReachedIsRuled(s, me);
    NotTerminating(s, me);
    StepKeepsGood(s, CloseRequest);
    var s1 := Step(s, CloseRequest).session;
    StepKeepsGood(s1, Write);
    RunCons(s, CloseRequest, [Write]);
    RunCons(s1, Write, []);
    RunNothing(Step(s1, Write).session);
    assert [CloseRequest] + [Write] == [CloseRequest, Write] && [Write] + [] == [Write];
  }

  lemma RunNothing(s: Session)
    ensures Run(s, []) == Ran(s)
  {
  }

  lemma NotTerminating(s: Session, me: Me)
    requires Ruled(s, me) && !s.ended && s.m.state.SessionEstablished?
    ensures !s.m.terminating
  {
    hide After;
  }

  /** An established session whose peer was silent for too long sends a keepalive, and closes with reason 1. */
  lemma ClosesWhenIdle(s: Session, me: Me)
    requires Reached(s, me) && !s.ended && s.m.state.SessionEstablished? && s.timer && s.keepaliveInitialized
    ensures var o := Run(s, [Tick(true), Write, Write]);
            o.Ran? && o.session.log == s.log + [Out(MKeepalive), Out(MSessTerm(false, 1))]
  {
    hide After, Good, Fresh, Run, Reached, KeepaliveInterval, ShouldUseTls, Step;
    ReachedIsRuled(s, me);
    NotTerminating(s, me);
    StepKeepsGood(s, Tick(true));
    IdleTick(s);
    var s1 := Step(s, Tick(true)).session;
    StepKeepsGood(s1, Write);
    KeepaliveOut(s1);
    var s2 := Step(s1, Write).session;
    StepKeepsGood(s2, Write);
    TermOut(s2);
    RunCons(s, Tick(true), [Write, Write]);
    RunCons(s1, Write, [Write]);
    RunCons(s2, Write, []);
    RunNothing(Step(s2, Write).session);
    assert [Tick(true)] + [Write, Write] == [Tick(true), Write, Write] && [Write] + [Write] == [Write, Write]
           && [Write] + [] == [Write];
  }

  lemma IdleTick(s: Session)
    requires !s.ended && s.m.state.SessionEstablished? && s.keepaliveInitialized && Step(s, Tick(true)).Stepped?
    ensures var s' := Step(s, Tick(true)).session;
            && s'.m == s.m.(state := SendKeepalive(SendSessTerm(Some(1)))) && s'.log == s.log && !s'.ended
  {
    hide KeepaliveInterval, ShouldUseTls;
  }

  lemma WriteStep(s: Session, message: Message, m: Machine)
    requires Step(s, Write).Stepped? && SendMessage(s.m) == Sends(message, m)
    ensures var s' := Step(s, Write).session;
            s'.m == m && s'.log == s.log + [Out(message)] && (s'.ended <==> s.ended || m.state.ConnectionClose?)
  {
    hide SendMessage, Settle;
    SettleFrame(Branch(s, Write).session);
    SettleEnds(Branch(s, Write).session);
  }

  /** A queued keepalive goes out, and what it was queued before is next. */
  lemma KeepaliveOut(s: Session)
    requires !s.ended && s.m.state.SendKeepalive? && Step(s, Write).Stepped?
    ensures var s' := Step(s, Write).session;
            s'.m == s.m.(state := s.m.state.inner) && s'.log == s.log + [Out(MKeepalive)]
            && (s'.ended <==> s.m.state.inner.ConnectionClose?)
  {
    hide Step;
    WriteStep(s, MKeepalive, s.m.(state := s.m.state.inner));
  }

  lemma TermOut(s: Session)
    requires !s.ended && s.m.state.SendSessTerm? && s.m.state.reason.Some? && Step(s, Write).Stepped?
    ensures Step(s, Write).session.log == s.log + [Out(MSessTerm(s.m.terminating, s.m.state.reason.value))]
  {
    hide Step;
    WriteStep(s, MSessTerm(s.m.terminating, s.m.state.reason.value), SendMessage(s.m).machine);
  }

  /** A tick sends one keepalive and leaves the session where it was. */
  lemma TicksSendKeepalives(s: Session, me: Me, idle: bool)
    requires Reached(s, me) && !s.ended && s.timer && s.keepaliveInitialized && (s.m.state.SessionEstablished? ==> !idle)
    ensures var o := Run(s, [Tick(idle), Write]);
            && o.Ran? && o.session.m == s.m && o.session.log == s.log + [Out(MKeepalive)] && !o.session.ended
            && o.session.receiving == s.receiving && o.session.started == s.started && o.session.delivered == s.delivered
  {
    hide After, Good, Fresh, Run, Reached, KeepaliveInterval, ShouldUseTls, Step;
    ReachedIsRuled(s, me);
    StepKeepsGood(s, Tick(idle));
    PlainTick(s, idle);
    var s1 := Step(s, Tick(idle)).session;
    NotClosed(s);
    StepKeepsGood(s1, Write);
    KeepaliveOut(s1);
    WriteKeepsTransfers(s1);
    RunCons(s, Tick(idle), [Write]);
    RunCons(s1, Write, []);
    RunNothing(Step(s1, Write).session);
    assert [Tick(idle)] + [Write] == [Tick(idle), Write] && [Write] + [] == [Write];
  }

  lemma NotClosed(s: Session)
    requires Good(s) && !s.ended
    ensures !s.m.state.ConnectionClose?
  {
  }

  lemma PlainTick(s: Session, idle: bool)
    requires !s.ended && s.keepaliveInitialized && (s.m.state.SessionEstablished? ==> !idle) && Step(s, Tick(idle)).Stepped?
    ensures var s' := Step(s, Tick(idle)).session;
            && s'.m == s.m.(state := SendKeepalive(s.m.state)) && s'.log == s.log && !s'.ended
            && s'.receiving == s.receiving && s'.started == s.started && s'.delivered == s.delivered
  {
    hide KeepaliveInterval, ShouldUseTls;
  }

  lemma WriteKeepsTransfers(s: Session)
    requires Step(s, Write).Stepped?
    ensures var s' := Step(s, Write).session;
            s'.receiving == s.receiving && s'.started == s.started && s'.delivered == s.delivered
  {
    hide SendMessage, Settle;
    SettleFrame(Branch(s, Write).session);
  }

  /** A message of unknown type is rejected by its number with reason 1, and that is the end. */
  lemma UnknownTypeIsRejected(s: Session, me: Me, code: u8, certificateOk: bool)
    requires Reached(s, me) && Enabled(s, Read(Garbled(InvalidMessageType(code)), certificateOk))
    ensures var o := Run(s, [Read(Garbled(InvalidMessageType(code)), certificateOk), Write]);
            o.Ran? && o.session.log == s.log + [Out(MMsgReject(1, code))] && o.session.ended
  {
    hide After, Good, Fresh, Run, Reached, KeepaliveInterval, ShouldUseTls, Step, FromCodec, GetInterests;
    var read := Read(Garbled(InvalidMessageType(code)), certificateOk);
    ReachedIsRuled(s, me);
    StepKeepsGood(s, read);
    UnknownTypeRead(s, me, code, certificateOk);
    var s1 := Step(s, read).session;
    StepKeepsGood(s1, Write);
    RejectOut(s1);
    RunCons(s, read, [Write]);
    RunCons(s1, Write, []);
    RunNothing(Step(s1, Write).session);
    assert [read] + [Write] == [read, Write] && [Write] + [] == [Write];
  }

  lemma UnknownTypeRead(s: Session, me: Me, code: u8, certificateOk: bool)
    requires Ruled(s, me) && Good(s) && Enabled(s, Read(Garbled(InvalidMessageType(code)), certificateOk))
    requires Step(s, Read(Garbled(InvalidMessageType(code)), certificateOk)).Stepped?
    ensures var s' := Step(s, Read(Garbled(InvalidMessageType(code)), certificateOk)).session;
            s'.m.state == SendMsgReject(1, code) && s'.log == s.log && !s'.ended && Enabled(s', Write)
  {
    hide KeepaliveInterval, ShouldUseTls, After, Matches, Settle, Fit, KeepaliveFit;
    var b := After(me, s.log).value;
    HeaderAgrees(s, me, b);
    ReadableFacts(s.m, me, b);
    var m := s.m.(state := SendMsgReject(1, code));
    assert DecodeMessage(s.m, Garbled(InvalidMessageType(code))) == Decodes(m, Refused(MessageError(InvalidMessageType(code))));
    SettleFrame(s.(m := m));
    SettleEnds(s.(m := m));
  }

  lemma RejectOut(s: Session)
    requires !s.ended && s.m.state.SendMsgReject? && Step(s, Write).Stepped?
    ensures var s' := Step(s, Write).session;
            s'.log == s.log + [Out(MMsgReject(s.m.state.rejectReason, s.m.state.messageType))] && s'.ended
  {
    hide Step;
    WriteStep(s, MMsgReject(s.m.state.rejectReason, s.m.state.messageType), SendMessage(s.m).machine);
  }
}
