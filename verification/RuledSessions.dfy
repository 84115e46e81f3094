/** Every session keeps the rules, over every run against any peer. */
module RuledSessions {
  import opened Bytes
  import opened Messages
  import opened StateMachine
  import opened Session
  import opened SessionSafety
  import opened SessionTermination
  import opened Rulebook

  // ----- how the machine remembers the log

  predicate Introduced(m: Machine, me: Me, b: Book) {
    && m.myNodeId == me.nodeId && m.canTls == me.canTls
    && b.initIn == m.peerSessInit && b.initOut == m.mySessInit.Some?
    && (m.mySessInit.Some? ==> MSessInit(m.mySessInit.value) == OwnInit(me))
    && b.headerIn == m.peerContactHeader.Some?
    && (b.headerIn ==> m.peerContactHeader.value.MContactHeader? && m.peerContactHeader.value.canTls == b.peerTls)
    && (m.myContactHeader.Some? ==> m.myContactHeader.value == OwnHeader(me))
  }

  predicate NoTransfers(b: Book) {
    b.arriving.None? && b.passedUp == [] && b.sending.None? && !b.termIn && !b.termOut
  }

  predicate SendsAs(tt: TransferTracker, b: Book) {
    && (b.sending.Some? ==> b.sending.value == Sending(tt.pos, tt.pos == |tt.transfer.data|))
    && (tt.pos > 0 ==> b.sending.Some?)
  }

  /** What the log says in each state of the handshake. */
  predicate HandshakeAt(c: States, me: Me, b: Book)
    requires Handshaking(c)
  {
    NoTransfers(b) && !b.over &&
    match c
    case ActiveSendContactHeader => me.active && !b.headerIn && b.initIn.None? && !b.initOut && b.owed == Some(OwnHeader(me))
    case PassiveWaitContactHeader => !me.active && !b.headerIn && b.initIn.None? && !b.initOut && b.owed.None?
    case ActiveWaitContactHeader => me.active && !b.headerIn && b.initIn.None? && !b.initOut && b.owed.None?
    case PassiveSendContactHeader => !me.active && b.headerIn && b.initIn.None? && !b.initOut && b.owed == Some(OwnHeader(me))
    case ActiveSendSessInit => me.active && b.headerIn && b.initIn.None? && !b.initOut && b.owed == Some(OwnInit(me))
    case PassiveWaitSessInit => !me.active && b.headerIn && b.initIn.None? && !b.initOut && b.owed.None?
    case ActiveWaitSessInit => me.active && b.headerIn && b.initIn.None? && b.initOut && b.owed.None?
    case PassiveSendSessInit => !me.active && b.headerIn && b.initIn.Some? && !b.initOut && b.owed == Some(OwnInit(me))
  }

  predicate TransferAt(c: States, b: Book)
    requires Transferring(c)
  {
    Open(b) && b.headerIn && !b.over &&
    match c
    case SessionEstablished => b.owed.None? && b.sending.None?
    case SendXferAck(ack) => b.owed == Some(MXferAck(ack)) && b.sending.None?
    case SendXferSegments(tt) => b.owed.None? && SendsAs(tt, b)
    case SendXferSegmentsAndAck(tt, ack) => b.owed == Some(MXferAck(ack)) && SendsAs(tt, b)
  }

  predicate ClosingAt(c: States, terminating: bool, b: Book)
    requires Closing(c)
  {
    match c
    case SendSessTerm(reason) =>
      && reason.Some? && b.headerIn && b.initIn.Some? && b.initOut && !b.termOut && !b.over
      && if terminating then b.termIn && b.owed == Some(MSessTerm(true, reason.value))
         else !b.termIn && b.owed.None? && (reason.value == 1 || reason.value == 5)
    case WaitSessTerm => b.headerIn && b.initIn.Some? && b.initOut && b.termOut && !b.termIn && b.owed.None? && !b.over
    case SendMsgReject(reason, code) =>
      && b.headerIn && !b.over
      && (b.owed == Some(MMsgReject(reason, code)) || (b.owed.None? && Volunteer(b, MMsgReject(reason, code)).Some?))
    case ConnectionClose => b.over
  }

  predicate Matches(m: Machine, me: Me, b: Book) {
    var c := Core(m.state);
    && Introduced(m, me, b)
    && (Closing(c) || !m.terminating)
    && if Handshaking(c) then HandshakeAt(c, me, b)
       else if Transferring(c) then TransferAt(c, b)
       else Closing(c) && ClosingAt(c, m.terminating, b)
  }

  /** The log keeps the rules, and so far as the session lives on, the session knows what the log says. */
  predicate Ruled(s: Session, me: Me) {
    var b := After(me, s.log);
    && b.Some?
    && s.delivered == b.value.passedUp
    && (s.ended || (s.receiving == b.value.arriving && Matches(s.m, me, b.value)))
  }

  // ----- writing

  /** Writing msg keeps the rules and leads to the machine m. */
  predicate MayWrite(me: Me, b: Book, msg: Message, m: Machine) {
    var b' := Next(me, b, Out(msg));
    b'.Some? && Matches(m, me, b'.value) && b'.value.arriving == b.arriving && b'.value.passedUp == b.passedUp
  }

  lemma KeepaliveRuled(m: Machine, me: Me, b: Book, keepalives: bool)
    requires m.state.SendKeepalive? && KeepaliveFit(m, keepalives) && Matches(m, me, b) && !Core(m.state).ConnectionClose?
    ensures SendMessage(m).Sends? && MayWrite(me, b, SendMessage(m).message, SendMessage(m).machine)
  {
    hide OwnInit, OwnHeader, Volunteer, SendsAs;
  }

  lemma HelloRuled(m: Machine, me: Me, b: Book)
    requires (m.state.ActiveSendContactHeader? || m.state.PassiveSendContactHeader?) && Matches(m, me, b)
    ensures SendMessage(m).Sends? && MayWrite(me, b, SendMessage(m).message, SendMessage(m).machine)
  {
    hide Volunteer, SendsAs, FeedSegment, OwnInit, ClosingAt, TransferAt;
  }

  lemma IntroductionRuled(m: Machine, me: Me, b: Book)
    requires (m.state.ActiveSendSessInit? || m.state.PassiveSendSessInit?) && Matches(m, me, b)
    ensures SendMessage(m).Sends? && MayWrite(me, b, SendMessage(m).message, SendMessage(m).machine)
  {
    hide Volunteer, SendsAs, FeedSegment, OwnHeader, ClosingAt;
  }

  lemma AckRuled(m: Machine, me: Me, b: Book)
    requires m.state.SendXferAck? || m.state.SendXferSegmentsAndAck?
    requires Matches(m, me, b)
    ensures SendMessage(m).Sends? && MayWrite(me, b, SendMessage(m).message, SendMessage(m).machine)
  {
    hide Volunteer, FeedSegment, OwnInit, OwnHeader;
  }

  lemma TermRuled(m: Machine, me: Me, b: Book)
    requires m.state.SendSessTerm? && Matches(m, me, b)
    ensures SendMessage(m).Sends? && MayWrite(me, b, SendMessage(m).message, SendMessage(m).machine)
  {
    hide SendsAs, FeedSegment, OwnInit, OwnHeader, WriteSegment, HandshakeAt, TransferAt;
    var o := SendMessage(m);
    assert o == Sends(MSessTerm(m.terminating, m.state.reason.value), o.machine);
    var b' := Next(me, b, Out(o.message));
    if m.terminating {
      assert o.machine.state == ConnectionClose && b'.Some? && b'.value.over;
    } else {
      assert o.machine.state == WaitSessTerm && b'.Some?;
    }
  }

  lemma RejectNext(me: Me, b: Book, msg: Message)
    requires msg.MMsgReject? && !b.over && (b.owed == Some(msg) || (b.owed.None? && Volunteer(b, msg).Some?))
    ensures var b' := Next(me, b, Out(msg));
            && b'.Some? && b'.value == b.(owed := None, over := true, disputed := false)
  {
    hide WriteSegment;
  }

  lemma RejectRuled(m: Machine, me: Me, b: Book)
    requires m.state.SendMsgReject? && Matches(m, me, b)
    ensures SendMessage(m).Sends? && MayWrite(me, b, SendMessage(m).message, SendMessage(m).machine)
  {
    hide SendsAs, FeedSegment, OwnInit, OwnHeader, Volunteer, Next, HandshakeAt, TransferAt;
    RejectNext(me, b, MMsgReject(m.state.rejectReason, m.state.messageType));
  }

  lemma FeedRuled(m: Machine, me: Me, b: Book)
    requires m.state.SendXferSegments? && m.state.tracker.pos < |m.state.tracker.transfer.data|
    requires Matches(m, me, b) && FeedSegment(m).Sends? && m.state.tracker.posAcked <= m.state.tracker.pos
    ensures MayWrite(me, b, FeedSegment(m).message, FeedSegment(m).machine)
    ensures SendComplete(FeedSegment(m).machine).Some?
    ensures MayWrite(me, b, FeedSegment(m).message, SendComplete(FeedSegment(m).machine).value)
  {
    hide OwnInit, OwnHeader;
  }

  lemma SendRuled(m: Machine, me: Me, b: Book, headerRead: bool, keepalives: bool)
    requires Fit(m, headerRead) && KeepaliveFit(m, keepalives) && Matches(m, me, b)
    requires GetInterests(m.state).Some? && GetInterests(m.state).value.writable
    ensures SendMessage(m).Sends? && MayWrite(me, b, SendMessage(m).message, SendMessage(m).machine)
  {
    hide Matches, MayWrite, FeedSegment;
    if m.state.SendKeepalive? {
      KeepaliveRuled(m, me, b, keepalives);
    } else if m.state.SendXferSegments? {
      FeedKeepsFit(m, headerRead, keepalives);
      FeedRuled(m, me, b);
    } else if m.state.SendXferAck? || m.state.SendXferSegmentsAndAck? {
      AckRuled(m, me, b);
    } else if m.state.SendSessTerm? {
      TermRuled(m, me, b);
    } else if m.state.SendMsgReject? {
      RejectRuled(m, me, b);
    } else if m.state.ActiveSendSessInit? || m.state.PassiveSendSessInit? {
      IntroductionRuled(m, me, b);
    } else {
      HelloRuled(m, me, b);
    }
  }

  // ----- reading

  /** Reading msg keeps the rules and leads to the machine m. */
  predicate MayRead(me: Me, b: Book, msg: Message, m: Machine) {
    var b' := Next(me, b, In(msg));
    b'.Some? && Matches(m, me, b'.value) && b'.value.arriving == b.arriving && b'.value.passedUp == b.passedUp
  }

  lemma ContactRuled(m: Machine, me: Me, b: Book, msg: Message)
    requires m.state.PassiveWaitContactHeader? || m.state.ActiveWaitContactHeader?
    requires Matches(m, me, b) && msg.MContactHeader?
    ensures var d := DecodeContact(m, Arrived(msg)); d.Decodes? && MayRead(me, b, msg, d.machine)
  {
    hide ReadSegment, ReadAck;
  }

  lemma ReadableFacts(m: Machine, me: Me, b: Book)
    requires Readable(m.state) && Matches(m, me, b)
    ensures Core(m.state) == m.state && b.owed.None? && !b.over
    ensures m.state.PassiveWaitContactHeader? || m.state.ActiveWaitContactHeader? <==> !b.headerIn
  {
    hide Introduced, NoTransfers, SendsAs;
  }

  /** Where a readable machine is, told by the log. */
  lemma ReadablePlaces(m: Machine, me: Me, b: Book)
    requires Readable(m.state) && Matches(m, me, b) && b.headerIn
    ensures m.state.PassiveWaitSessInit? || m.state.ActiveWaitSessInit? <==> b.initIn.None?
    ensures m.state.WaitSessTerm? <==> b.termOut
    ensures m.state.SessionEstablished? || m.state.SendXferSegments? <==> Open(b)
    ensures !m.state.SendXferSegmentsAndAck?
  {
    hide Introduced, SendsAs, OwnInit, OwnHeader;
  }

  lemma Rejects(m: Machine, me: Me, b: Book, t: MessageType)
    requires Readable(m.state) && Matches(m, me, b) && b.headerIn
    ensures Matches(Unexpected(m, t).machine, me, MustReject(b.(disputed := false), TypeCode(t)))
  {
    hide NoTransfers, SendsAs, OwnInit, OwnHeader, TypeCode, Volunteer;
    ReadableFacts(m, me, b);
  }

  lemma InitRuled(m: Machine, me: Me, b: Book, msg: Message)
    requires Readable(m.state) && Matches(m, me, b) && b.headerIn && msg.MSessInit?
    ensures DecodeArrived(m, msg).Decodes? && MayRead(me, b, msg, DecodeArrived(m, msg).machine)
  {
    hide ReadSegment, ReadAck, SendsAs, DecodeAck;
    ReadableFacts(m, me, b);
    ReadablePlaces(m, me, b);
    if b.initIn.Some? {
      hide Matches;
      Rejects(m, me, b, TSessInit);
    }
  }

  lemma TermReadRuled(m: Machine, me: Me, b: Book, msg: Message)
    requires Readable(m.state) && Matches(m, me, b) && b.headerIn && msg.MSessTerm?
    ensures DecodeArrived(m, msg).Decodes? && MayRead(me, b, msg, DecodeArrived(m, msg).machine)
  {
    hide ReadSegment, ReadAck, SendsAs, OwnInit, OwnHeader, DecodeAck;
    ReadableFacts(m, me, b);
    ReadablePlaces(m, me, b);
    if b.termOut {
      hide TransferAt, HandshakeAt;
    } else if Open(b) {
      hide HandshakeAt, Volunteer;
    } else {
      hide Matches;
      Rejects(m, me, b, TSessTerm);
    }
  }

  /** A message that is passed over. */
  lemma PlainRuled(m: Machine, me: Me, b: Book, msg: Message)
    requires Readable(m.state) && Matches(m, me, b) && b.headerIn && msg.MKeepalive?
    ensures DecodeArrived(m, msg) == Decodes(m, Accepted(msg)) && MayRead(me, b, msg, m)
  {
    hide ReadSegment, ReadAck, OwnInit, OwnHeader, DecodeAck, SendsAs;
    ReadableFacts(m, me, b);
    assert Next(me, b, In(msg)) == Some(b.(disputed := false));
    Undisputed(m, me, b);
  }

  lemma Undisputed(m: Machine, me: Me, b: Book)
    requires Readable(m.state) && Matches(m, me, b)
    ensures Matches(m, me, b.(disputed := false))
  {
  }

  /** A refusal is always rejected, a segment outside an open session as well. */
  lemma OutOfPlaceRuled(m: Machine, me: Me, b: Book, msg: Message)
    requires Readable(m.state) && Matches(m, me, b) && b.headerIn
    requires msg.MXferRefuse? || (msg.MXferSegment? && !Open(b))
    ensures DecodeArrived(m, msg).Decodes? && MayRead(me, b, msg, DecodeArrived(m, msg).machine)
  {
    hide ReadSegment, ReadAck, DecodeAck, Matches;
    ReadableFacts(m, me, b);
    ReadablePlaces(m, me, b);
    Rejects(m, me, b, if msg.MXferRefuse? then TXferRefuse else TXferSegment);
  }

  lemma AckRejected(m: Machine, me: Me, b: Book, msg: Message)
    requires Readable(m.state) && Matches(m, me, b) && b.headerIn && msg.MXferAck? && !m.state.SendXferSegments?
    ensures DecodeArrived(m, msg).Decodes? && MayRead(me, b, msg, DecodeArrived(m, msg).machine)
  {
    hide ReadSegment, DecodeAck, OwnInit, OwnHeader;
    ReadableFacts(m, me, b);
    ReadablePlaces(m, me, b);
    if !Open(b) {
      hide Matches;
      Rejects(m, me, b, TXferAck);
    }
  }

  lemma AckReadRuled(m: Machine, me: Me, b: Book, msg: Message)
    requires Matches(m, me, b) && b.headerIn && msg.MXferAck? && m.state.SendXferSegments?
    requires DecodeArrived(m, msg).Decodes? && m.state.tracker.pos <= |m.state.tracker.transfer.data|
    ensures var d := DecodeArrived(m, msg);
            if d.result == Refused(MessageError(InvalidAckValue)) then
              && Next(me, b, In(msg)).Some? && Next(me, b, In(msg)).value.passedUp == b.passedUp
            else MayRead(me, b, msg, d.machine)
  {
    hide ReadSegment, OwnInit, OwnHeader, HandshakeAt, ClosingAt;
    ReadableFacts(m, me, b);
  }

  lemma AckQueuedMatches(m: Machine, me: Me, b: Book, b': Book, ack: XferAck)
    requires Matches(m, me, b) && Open(b) && Readable(m.state) && b.headerIn
    requires b' == b.(owed := Some(MXferAck(ack)), arriving := b'.arriving, passedUp := b'.passedUp, disputed := false)
    ensures SendAck(m, ack).Some? && Matches(SendAck(m, ack).value, me, b')
  {
    hide OwnInit, OwnHeader, HandshakeAt, ClosingAt;
    ReadableFacts(m, me, b);
    ReadablePlaces(m, me, b);
  }

  lemma SixtyFourBits(n: nat)
    ensures AsU64(n) == Low64(n)
  {
  }

  lemma ReceiveAgrees(b: Book, x: XferSegment)
    ensures var r, b' := Receive(b.arriving, x), ReadSegment(b, x);
            && r.receiving == b'.arriving && b.passedUp + r.passedUp == b'.passedUp
            && if r.ack.None? then b' == b
               else b' == b.(owed := Some(MXferAck(r.ack.value)), arriving := b'.arriving, passedUp := b'.passedUp)
  {
    hide AsU64, Low64;
    var none: seq<Transfer> := [];
    assert b.passedUp + none == b.passedUp;
    if b.arriving.None? || b.arriving.value.id == x.id {
      var data := (if b.arriving.Some? then b.arriving.value.data else []) + x.data;
      SixtyFourBits(|data|);
      var ack := XferAck(x.flags, x.id, AsU64(|data|));
      if x.flags.end {
        assert Receive(b.arriving, x) == Receipt(None, [Transfer(x.id, data)], Some(ack));
      } else {
        assert Receive(b.arriving, x) == Receipt(Some(Transfer(x.id, data)), none, Some(ack));
      }
    } else {
      assert Receive(b.arriving, x) == Receipt(b.arriving, none, None);
    }
  }

  lemma SegmentAccepted(m: Machine, me: Me, b: Book, x: XferSegment)
    requires Matches(m, me, b) && Open(b) && Readable(m.state) && b.headerIn
    ensures DecodeMessage(m, Arrived(MXferSegment(x))) == Decodes(m, Accepted(MXferSegment(x)))
    ensures Next(me, b, In(MXferSegment(x))) == Some(ReadSegment(b.(disputed := false), x))
  {
    hide Matches, ReadSegment, DecodeAck;
    ReadableFacts(m, me, b);
    ReadablePlaces(m, me, b);
  }

  /** An accepted segment. */
  lemma SegmentRuled(s: Session, me: Me, b: Book, x: XferSegment)
    requires Matches(s.m, me, b) && Open(b) && Readable(s.m.state) && b.headerIn
    requires s.receiving == b.arriving && s.delivered == b.passedUp
    ensures TakeSegment(s, x).Stepped?
    ensures var s', b' := TakeSegment(s, x).session, ReadSegment(b.(disputed := false), x);
            s'.receiving == b'.arriving && s'.delivered == b'.passedUp && Matches(s'.m, me, b')
  {
    hide Matches, ReadSegment, Receive, SendAck, GetInterests, Open;
    var b0 := b.(disputed := false);
    ReceiveAgrees(b0, x);
    Undisputed(s.m, me, b);
    var r := Receive(s.receiving, x);
    if r.ack.Some? {
      AckQueuedMatches(s.m, me, b, ReadSegment(b0, x), r.ack.value);
    }
  }

  lemma HandleOthers(s: Session, result: DecodeResult, certificateOk: bool)
    requires HandleResult(s, result, certificateOk).Stepped? && !(result.Accepted? && result.message.MXferSegment?)
    ensures var s' := HandleResult(s, result, certificateOk).session;
            && (s' == s || s' == s.(ended := true))
            && (result.Accepted? && result.message.MMsgReject? ==> s'.ended)
            && (result == Refused(MessageError(InvalidAckValue)) ==> s'.ended)
  {
    hide TakeSegment, ShouldUseTls;
  }

  /** Any message but a segment, an acknowledgement or a rejection. */
  lemma ArrivedRuled(m: Machine, me: Me, b: Book, headerRead: bool, msg: Message)
    requires Readable(m.state) && Matches(m, me, b) && FromCodec(headerRead, Arrived(msg)) && headerRead == b.headerIn
    requires !msg.MXferAck? && !msg.MMsgReject? && (msg.MXferSegment? ==> !Open(b))
    ensures var d := DecodeMessage(m, Arrived(msg)); d.Decodes? && MayRead(me, b, msg, d.machine)
  {
    hide Matches, MayRead, DecodeContact, DecodeArrived;
    ReadableFacts(m, me, b);
    if msg.MContactHeader? {
      ContactRuled(m, me, b, msg);
    } else if msg.MSessInit? {
      InitRuled(m, me, b, msg);
    } else if msg.MSessTerm? {
      TermReadRuled(m, me, b, msg);
    } else if msg.MKeepalive? {
      PlainRuled(m, me, b, msg);
    } else {
      OutOfPlaceRuled(m, me, b, msg);
    }
  }

  lemma AckArrivedRuled(m: Machine, me: Me, b: Book, msg: Message)
    requires Readable(m.state) && Matches(m, me, b) && b.headerIn && msg.MXferAck? && Fit(m, true)
    requires DecodeMessage(m, Arrived(msg)).Decodes?
    ensures var d := DecodeMessage(m, Arrived(msg));
            if d.result == Refused(MessageError(InvalidAckValue)) then
              && Next(me, b, In(msg)).Some? && Next(me, b, In(msg)).value.passedUp == b.passedUp
            else MayRead(me, b, msg, d.machine)
  {
    hide Matches, MayRead, DecodeContact, DecodeArrived, Next;
    ReadableFacts(m, me, b);
    if m.state.SendXferSegments? {
      AckReadRuled(m, me, b, msg);
    } else {
      AckRejected(m, me, b, msg);
      RejectedNotInvalid(m, msg);
    }
  }

  lemma RejectedNotInvalid(m: Machine, msg: Message)
    requires msg.MXferAck? && !HasTracker(m.state)
    ensures DecodeArrived(m, msg).Decodes? && DecodeArrived(m, msg).result == Refused(MessageTypeInappropriate(TXferAck))
  {
  }

  lemma RejectRead(m: Machine, me: Me, b: Book, msg: Message)
    requires Readable(m.state) && Matches(m, me, b) && b.headerIn && msg.MMsgReject?
    ensures DecodeMessage(m, Arrived(msg)) == Decodes(m, Accepted(msg))
    ensures Next(me, b, In(msg)).Some? && Next(me, b, In(msg)).value.passedUp == b.passedUp
  {
    hide Matches;
    ReadableFacts(m, me, b);
  }

  predicate EndsSession(result: DecodeResult) {
    && result.Refused? && !result.error.MessageTypeInappropriate?
    && !(result.error.MessageError? && result.error.error.InvalidMessageType?)
  }

  lemma GarbledRuled(m: Machine, me: Me, b: Book, e: CodecError)
    requires Readable(m.state) && Matches(m, me, b) && FromCodec(b.headerIn, Garbled(e))
    requires DecodeMessage(m, Garbled(e)).Decodes?
    ensures var d := DecodeMessage(m, Garbled(e));
            d.result.Refused? && (EndsSession(d.result) || Matches(d.machine, me, b))
  {
    hide OwnInit, OwnHeader, SendsAs;
    ReadableFacts(m, me, b);
  }

  lemma ReadGarbledRuled(s: Session, me: Me, e: CodecError, certificateOk: bool)
    requires Ruled(s, me) && Equipped(s) && !s.ended && Readable(s.m.state) && FromCodec(s.headerRead, Garbled(e))
    requires ReadStep(s, Garbled(e), certificateOk).Stepped?
    ensures Ruled(ReadStep(s, Garbled(e), certificateOk).session, me)
  {
    hide Matches, DecodeMessage, HandleResult, Next, After, Fit, KeepaliveFit, FromCodec, GetInterests, EndsSession;
    var b := After(me, s.log).value;
    var d := DecodeMessage(s.m, Garbled(e));
    HeaderAgrees(s, me, b);
    GarbledRuled(s.m, me, b, e);
    HandleOthers(s.(m := d.machine), d.result, certificateOk);
    if EndsSession(d.result) {
      Ending(s.(m := d.machine), d.result, certificateOk);
    }
  }

  lemma ReadRuled(s: Session, me: Me, incoming: Incoming, certificateOk: bool)
    requires Ruled(s, me) && Good(s) && Enabled(s, Read(incoming, certificateOk))
    requires ReadStep(s, incoming, certificateOk).Stepped?
    ensures Ruled(ReadStep(s, incoming, certificateOk).session, me)
  {
    hide Matches, DecodeMessage, HandleResult, Next, After, Fit, KeepaliveFit, FromCodec, GetInterests;
    var b := After(me, s.log).value;
    var d := DecodeMessage(s.m, incoming);
    HeaderAgrees(s, me, b);
    if incoming.Garbled? {
      ReadGarbledRuled(s, me, incoming.error, certificateOk);
    } else {
      var msg := incoming.message;
      AfterOneMore(me, s.log, In(msg));
      var s1 := AfterDecode(s, d.machine, incoming);
      if msg.MXferSegment? && Open(b) {
        MessageNeedsHeader(s, msg);
        SegmentAccepted(s.m, me, b, msg.segment);
        SegmentRuled(s1, me, b, msg.segment);
        HandledSegment(s1, msg.segment, certificateOk);
      } else {
        ArrivedAny(s, me, b, msg);
        HandleOthers(s1, d.result, certificateOk);
        if EndsSession(d.result) {
          Ending(s1, d.result, certificateOk);
        }
      }
    }
  }

  /** Any message but an accepted segment: the rules hold, and the session goes on only if it knows what the log says. */
  lemma ArrivedAny(s: Session, me: Me, b: Book, msg: Message)
    requires Equipped(s) && Matches(s.m, me, b) && Readable(s.m.state) && FromCodec(s.headerRead, Arrived(msg))
    requires (msg.MXferSegment? ==> !Open(b)) && DecodeMessage(s.m, Arrived(msg)).Decodes?
    ensures var d := DecodeMessage(s.m, Arrived(msg));
            && !(d.result.Accepted? && d.result.message.MXferSegment?)
            && if msg.MMsgReject? || EndsSession(d.result) then
                 && Next(me, b, In(msg)).Some? && Next(me, b, In(msg)).value.passedUp == b.passedUp
                 && (msg.MMsgReject? ==> d.result == Accepted(msg))
               else MayRead(me, b, msg, d.machine)
  {
    hide Matches, DecodeMessage, Next, Fit, KeepaliveFit, GetInterests;
    HeaderAgrees(s, me, b);
    var d := DecodeMessage(s.m, Arrived(msg));
    if msg.MMsgReject? {
      MessageNeedsHeader(s, msg);
      RejectRead(s.m, me, b, msg);
    } else if msg.MXferAck? {
      MessageNeedsHeader(s, msg);
      AckArrivedRuled(s.m, me, b, msg);
    } else {
      ArrivedRuled(s.m, me, b, s.headerRead, msg);
      if msg.MXferSegment? {
        MessageNeedsHeader(s, msg);
        ReadablePlaces(s.m, me, b);
      }
    }
    ResultNames(s.m, msg);
  }

  lemma ResultNames(m: Machine, msg: Message)
    requires DecodeMessage(m, Arrived(msg)).Decodes?
    ensures var r := DecodeMessage(m, Arrived(msg)).result;
            && (r.Accepted? ==> r.message == msg)
            && (msg.MXferSegment? && r.Accepted? ==> m.state.SessionEstablished? || HasTracker(m.state))
            && (EndsSession(r) ==> r == Refused(MessageError(InvalidAckValue)))
  {
  }

  lemma HeaderAgrees(s: Session, me: Me, b: Book)
    requires Equipped(s) && Matches(s.m, me, b)
    ensures s.headerRead == b.headerIn
  {
  }

  lemma MessageNeedsHeader(s: Session, msg: Message)
    requires FromCodec(s.headerRead, Arrived(msg)) && !msg.MContactHeader?
    ensures s.headerRead
  {
  }

  lemma HandledSegment(s: Session, x: XferSegment, certificateOk: bool)
    ensures HandleResult(s, Accepted(MXferSegment(x)), certificateOk) == TakeSegment(s, x)
  {
  }

  lemma Ending(s: Session, result: DecodeResult, certificateOk: bool)
    requires EndsSession(result)
    ensures HandleResult(s, result, certificateOk) == Stepped(s.(ended := true))
  {
  }

  // ----- everything else

  lemma WriteRuled(s: Session, me: Me, cancelled: bool)
    requires Ruled(s, me) && Good(s) && Enabled(s, if cancelled then WriteCancelled else Write)
    ensures var o := Branch(s, if cancelled then WriteCancelled else Write); o.Stepped? && Ruled(o.session, me)
  {
    hide Matches, SendMessage, FeedSegment, Next, After, Fit, KeepaliveFit, SendComplete;
    var b := After(me, s.log).value;
    if cancelled {
      FeedKeepsFit(s.m, s.headerRead, s.keepaliveInitialized);
      AckedWithin(s);
      FeedRuled(s.m, me, b);
      AfterOneMore(me, s.log, Out(FeedSegment(s.m).message));
    } else {
      SendRuled(s.m, me, b, s.headerRead, s.keepaliveInitialized);
      AfterOneMore(me, s.log, Out(SendMessage(s.m).message));
    }
  }

  lemma AckedWithin(s: Session)
    requires Equipped(s) && s.m.state.SendXferSegments?
    ensures s.m.state.tracker.posAcked <= s.m.state.tracker.pos
  {
  }

  lemma RequestRuled(m: Machine, me: Me, b: Book, data: bytes)
    requires Matches(m, me, b) && m.state.SessionEstablished? && SendTransfer(m, data).Started?
    ensures Matches(SendTransfer(m, data).machine, me, b)
  {
    hide OwnInit, OwnHeader;
  }

  lemma CloseRuled(m: Machine, me: Me, b: Book, reason: TermReason)
    requires Matches(m, me, b) && m.state.SessionEstablished? && (reason == 1 || reason == 5)
    ensures Matches(m.(state := SendSessTerm(Some(reason))), me, b)
  {
    hide OwnInit, OwnHeader, HandshakeAt;
  }

  lemma QueueRuled(m: Machine, me: Me, b: Book)
    requires Matches(m, me, b)
    ensures Matches(m.(state := SendKeepalive(m.state)), me, b)
  {
    hide OwnInit, OwnHeader, HandshakeAt, TransferAt, ClosingAt;
  }

  lemma TickRuled(s: Session, me: Me, idle: bool)
    requires Ruled(s, me) && !s.ended && TickStep(s, idle).Stepped?
    ensures Ruled(TickStep(s, idle).session, me)
  {
    hide Matches, After, KeepaliveInterval;
    var b := After(me, s.log).value;
    var closes := s.m.state.SessionEstablished? && idle;
    if closes {
      CloseRuled(s.m, me, b, 1);
    }
    var m := if closes then s.m.(state := SendSessTerm(Some(TERM_IDLE_TIMEOUT))) else s.m;
    QueueRuled(m, me, b);
  }

  lemma OtherRuled(s: Session, me: Me, ev: Event)
    requires Ruled(s, me) && Enabled(s, ev) && (ev.Request? || ev.Tick? || ev.CloseRequest? || ev.Lost?)
    requires Branch(s, ev).Stepped?
    ensures Ruled(Branch(s, ev).session, me)
  {
    hide Matches, After, SendTransfer, TickStep;
    var b := After(me, s.log).value;
    match ev
    case Request(data) =>
      if SendTransfer(s.m, data).Started? {
        RequestRuled(s.m, me, b, data);
      }
    case Tick(idle) => TickRuled(s, me, idle);
    case CloseRequest => CloseRuled(s.m, me, b, 5);
    case Lost =>
  }

  lemma SettleRuled(s: Session, me: Me)
    requires Ruled(s, me) && Settle(s).Stepped?
    ensures Ruled(Settle(s).session, me)
  {
    hide After, Matches, Settle;
    SettleFrame(s);
    EndedStays(s);
  }

  lemma EndedStays(s: Session)
    requires Settle(s).Stepped?
    ensures s.ended ==> Settle(s).session.ended
  {
    hide ShouldUseTls, KeepaliveInterval;
  }

  lemma StepRuled(s: Session, me: Me, ev: Event)
    requires Ruled(s, me) && Good(s) && Enabled(s, ev) && Step(s, ev).Stepped?
    ensures Ruled(Step(s, ev).session, me)
  {
    hide Ruled, Good, Enabled, Branch, Settle, ReadStep;
    if ev.Read? {
      BranchRead(s, ev);
      ReadRuled(s, me, ev.incoming, ev.certificateOk);
    } else if ev.Write? || ev.WriteCancelled? {
      WriteRuled(s, me, ev.WriteCancelled?);
    } else {
      OtherRuled(s, me, ev);
    }
    SettleRuled(Branch(s, ev).session, me);
  }

  lemma {:induction false} RunRuled(s: Session, me: Me, evs: seq<Event>)
    requires Ruled(s, me) && Good(s) && Run(s, evs).Ran?
    ensures Ruled(Run(s, evs).session, me) && Good(Run(s, evs).session)
    decreases |evs|
  {
    hide Ruled, Good, Enabled, Step;
    if evs != [] {
      StepKeepsGood(s, evs[0]);
      StepRuled(s, me, evs[0]);
      RunRuled(Step(s, evs[0]).session, me, evs[1..]);
    }
  }

  function Fresh(me: Me): Session {
    NewSession(me.active, me.nodeId, me.canTls)
  }

  lemma FreshIsRuled(me: Me)
    ensures Ruled(Fresh(me), me) && Good(Fresh(me))
  {
  }

  /** A live session that owes an answer writes, and reads nothing before that. */
  lemma OwingWrites(s: Session, me: Me)
    requires Ruled(s, me) && Good(s) && !s.ended
    ensures var b := After(me, s.log).value;
            && !b.over && b.initIn == s.m.peerSessInit && b.headerIn == s.headerRead
            && (b.owed.Some? ==> Enabled(s, Write) && !Readable(s.m.state))
  {
    hide After, OwnInit, OwnHeader, SendsAs;
  }

  /** Over every run of a new session, against any peer: what it reads and writes keeps every rule, a transfer is
      passed up exactly when its last segment was read and with the bytes of its segments, a session whose log is over
      has ended, and one that owes an answer can write it and does not read on. */
  lemma SessionsKeepTheRules(me: Me, evs: seq<Event>)
    requires Run(Fresh(me), evs).Ran?
    ensures var s, b := Run(Fresh(me), evs).session, After(me, Run(Fresh(me), evs).session.log);
            && b.Some?
            && s.delivered == b.value.passedUp
            && (b.value.over ==> s.ended)
            && (!s.ended ==> s.receiving == b.value.arriving && s.m.peerSessInit == b.value.initIn)
            && (!s.ended && b.value.owed.Some? ==> Enabled(s, Write) && !Readable(s.m.state))
  {
    hide After, Run, Good, Fresh, Matches, Enabled, GetInterests;
    FreshIsRuled(me);
    RunRuled(Fresh(me), me, evs);
    var s := Run(Fresh(me), evs).session;
    if !s.ended {
      OwingWrites(s, me);
    }
  }
}
