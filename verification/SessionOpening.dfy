/** How two ends come to a session: the shortest runs of the active and of the passive end. */
module SessionOpening {
  import opened Bytes
  import opened Messages
  import opened StateMachine
  import opened Session
  import opened SessionSafety
  import opened Rulebook
  import opened RuledSessions
  import opened SessionEvents

  /** The session of one end on the way to its establishment. */
  function Opening(me: Me, state: States, mine: bool, theirs: Option<Message>, init: bool, peer: Option<SessInit>,
                   tls: bool, log: seq<Entry>): Session
  {
    var m := Fresh(me).m.(state := state, myContactHeader := if mine then Some(OwnHeader(me)) else None,
                          peerContactHeader := theirs,
                          mySessInit := if init then Some(OwnInit(me).init) else None, peerSessInit := peer);
    Fresh(me).(m := m, headerRead := theirs.Some?, tlsInitialized := tls, log := log)
  }

  /** The same session once it is established: announced, and with a timer if the peer asked for keepalives. */
  function Opened(me: Me, header: Message, init: SessInit, log: seq<Entry>): Session {
    Opening(me, SessionEstablished, true, Some(header), true, Some(init), true, log)
      .(announced := true, keepaliveInitialized := true, timer := init.keepaliveInterval > 0)
  }

  lemma HelloOut(me: Me, state: States, state': States, theirs: Option<Message>, log: seq<Entry>)
    requires (state == ActiveSendContactHeader && state' == ActiveWaitContactHeader && theirs.None?)
             || (state == PassiveSendContactHeader && state' == PassiveWaitSessInit && theirs.Some? && theirs.value.MContactHeader?)
    ensures var s := Opening(me, state, false, theirs, false, None, false, log);
            && Enabled(s, Write)
            && Step(s, Write) == Stepped(Opening(me, state', true, theirs, false, None, theirs.Some?, log + [Out(OwnHeader(me))]))
  {
  }

  lemma HelloIn(me: Me, state: States, state': States, mine: bool, header: Message, log: seq<Entry>)
    requires header.MContactHeader?
    requires (state == ActiveWaitContactHeader && state' == ActiveSendSessInit && mine)
             || (state == PassiveWaitContactHeader && state' == PassiveSendContactHeader && !mine)
    ensures var s := Opening(me, state, mine, None, false, None, false, log);
            && Enabled(s, Read(Arrived(header), true))
            && Step(s, Read(Arrived(header), true))
               == Stepped(Opening(me, state', mine, Some(header), false, None, mine, log + [In(header)]))
  {
  }

  lemma InitOut(me: Me, header: Message, log: seq<Entry>)
    requires header.MContactHeader?
    ensures var s := Opening(me, ActiveSendSessInit, true, Some(header), false, None, true, log);
            && Enabled(s, Write)
            && Step(s, Write)
               == Stepped(Opening(me, ActiveWaitSessInit, true, Some(header), true, None, true, log + [Out(OwnInit(me))]))
  {
  }

  lemma InitBack(me: Me, header: Message, init: SessInit, log: seq<Entry>)
    requires header.MContactHeader?
    ensures var s := Opening(me, PassiveSendSessInit, true, Some(header), false, Some(init), true, log);
            Enabled(s, Write) && Step(s, Write) == Stepped(Opened(me, header, init, log + [Out(OwnInit(me))]))
  {
  }

  lemma InitIn(me: Me, header: Message, init: SessInit, certificateOk: bool, log: seq<Entry>)
    requires header.MContactHeader? && (me.canTls && header.canTls ==> certificateOk)
    ensures var s := Opening(me, ActiveWaitSessInit, true, Some(header), true, None, true, log);
            && Enabled(s, Read(Arrived(MSessInit(init)), certificateOk))
            && Step(s, Read(Arrived(MSessInit(init)), certificateOk))
               == Stepped(Opened(me, header, init, log + [In(MSessInit(init))]))
  {
  }

  lemma InitFirst(me: Me, header: Message, init: SessInit, certificateOk: bool, log: seq<Entry>)
    requires header.MContactHeader? && (me.canTls && header.canTls ==> certificateOk)
    ensures var s := Opening(me, PassiveWaitSessInit, true, Some(header), false, None, true, log);
            && Enabled(s, Read(Arrived(MSessInit(init)), certificateOk))
            && Step(s, Read(Arrived(MSessInit(init)), certificateOk))
               == Stepped(Opening(me, PassiveSendSessInit, true, Some(header), false, Some(init), true,
                                  log + [In(MSessInit(init))]))
  {
  }

  lemma FreshOpens(me: Me)
    ensures Fresh(me) == Opening(me, if me.active then ActiveSendContactHeader else PassiveWaitContactHeader, false, None,
                                 false, None, false, [])
  {
  }

  lemma FourEvents(s: Session, e1: Event, e2: Event, e3: Event, e4: Event, s1: Session, s2: Session, s3: Session, s4: Session)
    requires Enabled(s, e1) && Step(s, e1) == Stepped(s1) && Enabled(s1, e2) && Step(s1, e2) == Stepped(s2)
    requires Enabled(s2, e3) && Step(s2, e3) == Stepped(s3) && Enabled(s3, e4) && Step(s3, e4) == Stepped(s4)
    ensures Run(s, [e1, e2, e3, e4]) == Ran(s4)
  {
    hide Enabled, Step, Run;
    RunNothing(s4);
    RunCons(s3, e4, []);
    RunCons(s2, e3, [e4]);
    RunCons(s1, e2, [e3, e4]);
    RunCons(s, e1, [e2, e3, e4]);
    assert [e4] + [] == [e4] && [e3] + [e4] == [e3, e4] && [e2] + [e3, e4] == [e2, e3, e4]
           && [e1] + [e2, e3, e4] == [e1, e2, e3, e4];
  }

  /** The active end, whatever the peer announces: it says hello, introduces itself once the peer said hello, and is
      established with the introduction of the peer. */
  lemma ActiveOpens(me: Me, header: Message, init: SessInit, certificateOk: bool)
    requires me.active && header.MContactHeader? && (me.canTls && header.canTls ==> certificateOk)
    ensures Run(Fresh(me), [Write, Read(Arrived(header), true), Write, Read(Arrived(MSessInit(init)), certificateOk)])
            == Ran(Opened(me, header, init, [Out(OwnHeader(me)), In(header), Out(OwnInit(me)), In(MSessInit(init))]))
  {
    hide Opening, Fresh, Opened, Enabled, Step, Run, OwnHeader, OwnInit;
    FreshOpens(me);
    var none: seq<Entry> := [];
    var l1 := none + [Out(OwnHeader(me))];
    var l2 := l1 + [In(header)];
    var l3 := l2 + [Out(OwnInit(me))];
    HelloOut(me, ActiveSendContactHeader, ActiveWaitContactHeader, None, none);
    HelloIn(me, ActiveWaitContactHeader, ActiveSendSessInit, true, header, l1);
    InitOut(me, header, l2);
    InitIn(me, header, init, certificateOk, l3);
    var l4 := l3 + [In(MSessInit(init))];
    assert l4 == [Out(OwnHeader(me)), In(header), Out(OwnInit(me)), In(MSessInit(init))];
    FourEvents(Fresh(me), Write, Read(Arrived(header), true), Write, Read(Arrived(MSessInit(init)), certificateOk),
               Opening(me, ActiveWaitContactHeader, true, None, false, None, false, l1),
               Opening(me, ActiveSendSessInit, true, Some(header), false, None, true, l2),
               Opening(me, ActiveWaitSessInit, true, Some(header), true, None, true, l3),
               Opened(me, header, init, l4));
  }

  /** The passive end answers each message of the peer with its own. */
  lemma PassiveOpens(me: Me, header: Message, init: SessInit, certificateOk: bool)
    requires !me.active && header.MContactHeader? && (me.canTls && header.canTls ==> certificateOk)
    ensures Run(Fresh(me), [Read(Arrived(header), true), Write, Read(Arrived(MSessInit(init)), certificateOk), Write])
            == Ran(Opened(me, header, init, [In(header), Out(OwnHeader(me)), In(MSessInit(init)), Out(OwnInit(me))]))
  {
    hide Opening, Fresh, Opened, Enabled, Step, Run, OwnHeader, OwnInit;
    FreshOpens(me);
    var none: seq<Entry> := [];
    var l1 := none + [In(header)];
    var l2 := l1 + [Out(OwnHeader(me))];
    var l3 := l2 + [In(MSessInit(init))];
    HelloIn(me, PassiveWaitContactHeader, PassiveSendContactHeader, false, header, none);
    HelloOut(me, PassiveSendContactHeader, PassiveWaitSessInit, Some(header), l1);
    InitFirst(me, header, init, certificateOk, l2);
    InitBack(me, header, init, l3);
    var l4 := l3 + [Out(OwnInit(me))];
    assert l4 == [In(header), Out(OwnHeader(me)), In(MSessInit(init)), Out(OwnInit(me))];
    FourEvents(Fresh(me), Read(Arrived(header), true), Write, Read(Arrived(MSessInit(init)), certificateOk), Write,
               Opening(me, PassiveSendContactHeader, false, Some(header), false, None, false, l1),
               Opening(me, PassiveWaitSessInit, true, Some(header), false, None, true, l2),
               Opening(me, PassiveSendSessInit, true, Some(header), false, Some(init), true, l3),
               Opened(me, header, init, l4));
  }
}
