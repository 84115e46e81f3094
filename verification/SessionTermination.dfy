/** Termination discipline (section 6.1 of RFC 9174), over every run against any peer. */
module SessionTermination {
  import opened Bytes
  import opened Messages
  import opened StateMachine
  import opened Session
  import opened SessionSafety

  predicate OutTerm(e: Entry) {
    e.Out? && e.message.MSessTerm?
  }

  predicate InTerm(e: Entry) {
    e.In? && e.message.MSessTerm?
  }

  predicate OutSegment(e: Entry) {
    e.Out? && e.message.MXferSegment?
  }

  ghost predicate TermSent(log: seq<Entry>) {
    exists i :: 0 <= i < |log| && OutTerm(log[i])
  }

  ghost predicate TermReceived(log: seq<Entry>) {
    exists i :: 0 <= i < |log| && InTerm(log[i])
  }

  /** Every SESS_TERM sent carries REPLY exactly if one was received before it, and neither another SESS_TERM nor a
      segment is sent after it. */
  ghost predicate Disciplined(log: seq<Entry>) {
    && (forall i :: 0 <= i < |log| && OutTerm(log[i]) ==> (log[i].message.reply <==> TermReceived(log[..i])))
    && (forall i, j :: 0 <= i < j < |log| && OutTerm(log[i]) ==> !OutTerm(log[j]) && !OutSegment(log[j]))
  }

  /** How the state remembers what the log says. */
  ghost predicate TermLink(m: Machine, log: seq<Entry>) {
    var c := Core(m.state);
    && (TermSent(log) ==> c.WaitSessTerm? || c.SendMsgReject? || c.ConnectionClose?)
    && (c.SendSessTerm? ==> (m.terminating <==> TermReceived(log)))
    && (!Closing(c) ==> !m.terminating && !TermReceived(log))
  }

  ghost predicate Terminates(s: Session) {
    Disciplined(s.log) && TermLink(s.m, s.log)
  }

  lemma Append(log: seq<Entry>, e: Entry)
    ensures TermSent(log + [e]) <==> TermSent(log) || OutTerm(e)
    ensures TermReceived(log + [e]) <==> TermReceived(log) || InTerm(e)
    ensures (&& Disciplined(log)
             && (OutTerm(e) ==> (e.message.reply <==> TermReceived(log)))
             && (OutTerm(e) || OutSegment(e) ==> !TermSent(log)))
            ==> Disciplined(log + [e])
  {
    var log' := log + [e];
    assert log'[|log|] == e && log'[..|log|] == log;
    assert forall i :: 0 <= i < |log| ==> log'[i] == log[i] && log'[..i] == log[..i];
  }

  lemma DecodeKeepsLink(m: Machine, log: seq<Entry>, incoming: Incoming)
    requires Disciplined(log) && TermLink(m, log) && Readable(m.state) && DecodeMessage(m, incoming).Decodes?
    ensures var log' := if incoming.Arrived? then log + [In(incoming.message)] else log;
            Disciplined(log') && TermLink(DecodeMessage(m, incoming).machine, log')
  {
    hide Disciplined, TermSent, TermReceived;
    if incoming.Arrived? {
      Append(log, In(incoming.message));
    }
  }

  lemma SendKeepsLink(m: Machine, log: seq<Entry>)
    requires Disciplined(log) && TermLink(m, log)
    requires SendMessage(m).Sends?
    ensures var o := SendMessage(m); Disciplined(log + [Out(o.message)]) && TermLink(o.machine, log + [Out(o.message)])
  {
    hide Disciplined, TermSent, TermReceived, NextSegment, FeedSegment;
    if m.state.SendXferSegments? {
      FeedOutcome(m);
    }
    Append(log, Out(SendMessage(m).message));
  }

  lemma FeedOutcome(m: Machine)
    requires m.state.SendXferSegments?
    ensures FeedSegment(m).Sends? ==>
              && FeedSegment(m).message.MXferSegment? && FeedSegment(m).machine.state.SendXferSegments?
              && FeedSegment(m).machine == m.(state := FeedSegment(m).machine.state)
  {
  }

  /** The head of the loop changes neither the machine nor what was exchanged. */
  lemma SettleFrame(s: Session)
    requires Settle(s).Stepped?
    ensures var s' := Settle(s).session;
            && s'.m == s.m && s'.log == s.log && s'.started == s.started && s'.delivered == s.delivered
            && s'.receiving == s.receiving && s'.headerRead == s.headerRead
  {
    hide ShouldUseTls, KeepaliveInterval, ContactHeaderDone;
  }

  /** Queueing an acknowledgement is all that handling a decoded message does to the machine. */
  ghost predicate AckQueued(m: Machine, m': Machine) {
    || m' == m
    || (m.state.SessionEstablished? && m'.state.SendXferAck? && m' == m.(state := m'.state))
    || (m.state.SendXferSegments? && m'.state.SendXferSegmentsAndAck? && m' == m.(state := m'.state)
        && m'.state.tracker == m.state.tracker)
  }

  lemma SendAckQueues(m: Machine, ack: XferAck)
    ensures SendAck(m, ack).Some? ==> AckQueued(m, SendAck(m, ack).value)
  {
  }

  ghost predicate Framed(s: Session, s': Session) {
    && s'.log == s.log && s'.started == s.started && s'.headerRead == s.headerRead
    && s'.resultFor == s.resultFor && s'.reported == s.reported
    && AckQueued(s.m, s'.m)
  }

  lemma TakeSegmentFrame(s: Session, x: XferSegment)
    requires TakeSegment(s, x).Stepped?
    ensures Framed(s, TakeSegment(s, x).session)
  {
    hide Receive, SendAck, AckQueued;
    SameMachine(s.m);
    var r := Receive(s.receiving, x);
    if r.ack.Some? {
      SendAckQueues(s.m, r.ack.value);
    }
  }

  lemma HandleFrame(s: Session, result: DecodeResult, certificateOk: bool)
    requires HandleResult(s, result, certificateOk).Stepped?
    ensures Framed(s, HandleResult(s, result, certificateOk).session)
  {
    hide TakeSegment, ShouldUseTls, AckQueued;
    SameMachine(s.m);
    if result.Accepted? && result.message.MXferSegment? {
      TakeSegmentFrame(s, result.message.segment);
    }
  }

  lemma SameMachine(m: Machine)
    ensures AckQueued(m, m)
  {
  }

  lemma ReadKeepsTerminates(s: Session, incoming: Incoming, certificateOk: bool)
    requires Terminates(s) && Readable(s.m.state) && ReadStep(s, incoming, certificateOk).Stepped?
    ensures Terminates(ReadStep(s, incoming, certificateOk).session)
  {
    hide DecodeMessage, HandleResult, Disciplined, TermSent, TermReceived, TermLink, AckQueued;
    DecodeKeepsLink(s.m, s.log, incoming);
    var d := DecodeMessage(s.m, incoming);
    var s' := AfterDecode(s, d.machine, incoming);
    HandleFrame(s', d.result, certificateOk);
    AckKeepsLink(s'.m, HandleResult(s', d.result, certificateOk).session.m, s'.log);
  }

  lemma AckKeepsLink(m: Machine, m': Machine, log: seq<Entry>)
    requires TermLink(m, log) && AckQueued(m, m')
    ensures TermLink(m', log)
  {
    hide TermSent, TermReceived;
  }

  lemma OtherKeepsTerminates(s: Session, ev: Event)
    requires Terminates(s) && Enabled(s, ev) && !ev.Read? && Branch(s, ev).Stepped?
    ensures Terminates(Branch(s, ev).session)
  {
    hide Disciplined, TermSent, TermReceived, SendMessage, FeedSegment, KeepaliveInterval, ReadStep;
    if ev.Write? && SendMessage(s.m).Sends? {
      SendKeepsLink(s.m, s.log);
    } else if ev.WriteCancelled? && FeedSegment(s.m).Sends? {
      FeedOutcome(s.m);
      Append(s.log, Out(FeedSegment(s.m).message));
    }
  }

  lemma StepKeepsTerminates(s: Session, ev: Event)
    requires Terminates(s) && Enabled(s, ev) && Step(s, ev).Stepped?
    ensures Terminates(Step(s, ev).session)
  {
    hide Settle, Branch, Disciplined, TermLink;
    if ev.Read? {
      BranchRead(s, ev);
      ReadKeepsTerminates(s, ev.incoming, ev.certificateOk);
    } else {
      OtherKeepsTerminates(s, ev);
    }
    SettleFrame(Branch(s, ev).session);
  }

  lemma {:induction false} RunKeepsTerminates(s: Session, evs: seq<Event>)
    requires Terminates(s) && Run(s, evs).Ran?
    ensures Terminates(Run(s, evs).session)
    decreases |evs|
  {
    hide Enabled, Step, Terminates;
    if evs != [] {
      StepKeepsTerminates(s, evs[0]);
      RunKeepsTerminates(Step(s, evs[0]).session, evs[1..]);
    }
  }

  lemma NewSessionTerminates(active: bool, nodeId: bytes, canTls: bool)
    ensures Terminates(NewSession(active, nodeId, canTls))
  {
  }

  /** Over every run of a new session, against any peer: at most one SESS_TERM is sent, its REPLY flag is set if and
      only if a SESS_TERM was received earlier, no segment follows it, and the session is not established again. */
  lemma TerminationDiscipline(active: bool, nodeId: bytes, canTls: bool, evs: seq<Event>)
    requires Run(NewSession(active, nodeId, canTls), evs).Ran?
    ensures var s := Run(NewSession(active, nodeId, canTls), evs).session;
            Disciplined(s.log) && (TermSent(s.log) ==> !Transferring(Core(s.m.state)))
  {
    hide Run, Disciplined, TermSent, TermReceived;
    NewSessionTerminates(active, nodeId, canTls);
    RunKeepsTerminates(NewSession(active, nodeId, canTls), evs);
  }
}
