/** One session against any peer: the driver never asks the machine for something it would panic on. */
module SessionSafety {
  import opened Bytes
  import opened Messages
  import opened Codec
  import opened StateMachine
  import opened Session

  /** The state below any number of queued keepalives. */
  function Core(s: States): States {
    if s.SendKeepalive? then Core(s.inner) else s
  }

  predicate Handshaking(c: States) {
    c.ActiveSendContactHeader? || c.PassiveWaitContactHeader? || c.ActiveWaitContactHeader?
    || c.PassiveSendContactHeader? || c.ActiveSendSessInit? || c.PassiveWaitSessInit? || c.ActiveWaitSessInit?
    || c.PassiveSendSessInit?
  }

  predicate HasTracker(c: States) {
    c.SendXferSegments? || c.SendXferSegmentsAndAck?
  }

  /** Past the handshake, and not yet terminating. */
  predicate Transferring(c: States) {
    c.SessionEstablished? || c.SendXferAck? || HasTracker(c)
  }

  predicate Closing(c: States) {
    c.SendSessTerm? || c.WaitSessTerm? || c.SendMsgReject? || c.ConnectionClose?
  }

  predicate TrackerOk(tt: TransferTracker, mru: u64) {
    && tt.posAcked <= tt.pos <= |tt.transfer.data| < 0x8000_0000_0000_0000
    && (0 < tt.pos < |tt.transfer.data| ==> mru < |tt.transfer.data|)
  }

  /** The data each state relies on is there. */
  predicate Fit(m: Machine, headerRead: bool) {
    var c := Core(m.state);
    && !c.ShouldNeverExist?
    && (c.ConnectionClose? ==> m.state.ConnectionClose?)
    && headerRead == m.peerContactHeader.Some?
    && (c.ActiveSendContactHeader? || c.PassiveWaitContactHeader? || c.ActiveWaitContactHeader? ==> !headerRead)
    && (c.PassiveSendContactHeader? ==> headerRead)
    && (c.ActiveWaitContactHeader? ==> m.myContactHeader.Some?)
    && (ContactHeaderDone(c) ==> m.myContactHeader.Some? && m.peerContactHeader.Some?)
    && (c.ActiveWaitSessInit? ==> m.mySessInit.Some?)
    && (c.PassiveSendSessInit? ==> m.peerSessInit.Some?)
    && (Transferring(c) || c.SendSessTerm? || c.WaitSessTerm? ==> m.mySessInit.Some? && m.peerSessInit.Some?)
    && (HasTracker(c) ==> TrackerOk(c.tracker, m.peerSessInit.value.segmentMru))
  }

  /** Keepalives are queued only once the session has been established. */
  predicate KeepaliveFit(m: Machine, keepalives: bool) {
    && (m.state.SendKeepalive? ==> keepalives)
    && (keepalives ==> !Handshaking(Core(m.state)) && m.mySessInit.Some? && m.peerSessInit.Some?)
  }

  predicate Equipped(s: Session) {
    Fit(s.m, s.headerRead) && KeepaliveFit(s.m, s.keepaliveInitialized)
  }

  /** What holds whenever the driver is about to `select!`. */
  predicate Good(s: Session) {
    s.ended || (Equipped(s) && !Core(s.m.state).ConnectionClose?)
  }

  /** The only results of the codec, and requests, on which the session panics: an I/O error before the contact header
      is read, an acknowledgement naming another transfer than the current one, and a transfer beyond the last 64-bit
      id.  The bytes on which the codec itself panics are those of `Overreads`. */
  predicate BadInput(s: Session, ev: Event) {
    match ev
    case Read(Garbled(IoError), _) => !s.headerRead
    case Read(Arrived(MXferAck(xa)), _) => HasTracker(s.m.state) && s.m.state.tracker.transfer.id != xa.id
    case Request(data) =>
      s.m.lastUsedTransferId == 0xFFFF_FFFF_FFFF_FFFF && s.m.peerSessInit.Some?
      && |data| <= s.m.peerSessInit.value.transferMru
    case _ => false
  }

  /** The real codec produces just what `FromCodec` allows, and its header flag moves like `headerRead`. */
  lemma CodecYieldsFromCodec(c: CodecState, buffer: bytes)
    requires DecodeCall(c, buffer).Answered?
    ensures var o := DecodeCall(c, buffer);
            && (o.answer.Item? ==> FromCodec(c.headerDone, Arrived(o.answer.message)))
            && (o.answer.Error? ==> FromCodec(c.headerDone, Garbled(o.answer.error)))
            && o.state.headerDone == (c.headerDone || (o.answer.Item? && o.answer.message.MContactHeader?))
  {
    hide FromBE, Pow256, DecodeSessInit, DecodeXferSegment, DecodeXferAck, DecodeXferRefuse;
    if c.headerDone && buffer != [] && (c.current.Some? || TypeOfCode(buffer[0]).Some?) {
      var skip := if c.current.None? then 1 else 0;
      var t := if c.current.None? then TypeOfCode(buffer[0]).value else c.current.value;
      BodyErrors(t, buffer[skip..]);
    }
  }

  lemma BodyErrors(t: MessageType, s: bytes)
    ensures DecodeBody(t, s).Failed? ==>
              var e := DecodeBody(t, s).error;
              !e.InvalidHeader? && !e.InvalidAckValue? && !e.InvalidMessageType?
  {
    hide FromBE, Pow256, Utf8Valid, DecodeExtension;
    if t.TSessInit? && |s| >= 24 && |s| >= 24 + U16(s, 18) {
      var n: nat := U16(s, 18);
      ExtensionErrors(s, 24 + n, 24 + n + U32(s, 20 + n), false);
    } else if t.TXferSegment? && |s| >= 13 {
      ExtensionErrors(s, 13, 13 + U32(s, 9), true);
    }
  }

  lemma {:induction false} ExtensionErrors(s: bytes, p: nat, end: nat, transfer: bool)
    requires p <= |s|
    ensures var d := DecodeExtensions(s, p, end, transfer);
            d.Failed? ==> d.error.UnknownCriticalTransferExtension? || d.error.UnknownCriticalSessionExtension?
    decreases |s| - p
  {
    hide FromBE, Pow256, DecodeExtension;
    if p < end && DecodeExtension(s, p, transfer).Got? {
      ExtensionErrors(s, DecodeExtension(s, p, transfer).used, end, transfer);
    }
  }

  // ----- one iteration

  lemma ReadKeepsEquipped(s: Session, incoming: Incoming, certificateOk: bool)
    requires Good(s) && Enabled(s, Read(incoming, certificateOk))
    ensures var o := ReadStep(s, incoming, certificateOk);
            && (o.StepPanics? <==> BadInput(s, Read(incoming, certificateOk)))
            && (o.Stepped? ==> o.session.ended || Equipped(o.session))
  {
    hide FromCodec, DecodeMessage, GetInterests, HandleResult, Fit, KeepaliveFit;
    DecodePanicsIff(s.m, s.headerRead, incoming);
    var d := DecodeMessage(s.m, incoming);
    if d.Decodes? {
      DecodeKeepsFit(s.m, s.headerRead, s.keepaliveInitialized, incoming);
      HandleKeepsEquipped(AfterDecode(s, d.machine, incoming), d.result, certificateOk);
    }
  }

  lemma HandleKeepsEquipped(s: Session, result: DecodeResult, certificateOk: bool)
    requires result != Refused(MessageError(InvalidAckValue)) ==> Equipped(s)
    requires result.Accepted? && result.message.MXferSegment? ==>
               s.m.state.SessionEstablished? || s.m.state.SendXferSegments?
    requires result.Accepted? && result.message.MSessInit? ==> ContactHeaderDone(Core(s.m.state))
    ensures var o := HandleResult(s, result, certificateOk); o.Stepped? && (o.session.ended || Equipped(o.session))
  {
    hide TakeSegment, Fit, KeepaliveFit, ShouldUseTls;
    if result.Accepted? && result.message.MXferSegment? {
      SegmentKeepsEquipped(s, result.message.segment);
    } else if result.Accepted? && result.message.MSessInit? {
      TlsKnown(s.m, s.headerRead);
    }
  }

  lemma TlsKnown(m: Machine, headerRead: bool)
    requires Fit(m, headerRead) && ContactHeaderDone(Core(m.state))
    ensures ShouldUseTls(m).Some?
  {
  }

  lemma SegmentKeepsEquipped(s: Session, x: XferSegment)
    requires Equipped(s) && (s.m.state.SessionEstablished? || s.m.state.SendXferSegments?)
    ensures TakeSegment(s, x).Stepped? && Equipped(TakeSegment(s, x).session)
  {
    hide Receive;
  }

  predicate Readable(st: States) {
    GetInterests(st).Some? && GetInterests(st).value.readable
  }

  predicate HeaderRead'(headerRead: bool, incoming: Incoming) {
    headerRead || (incoming.Arrived? && incoming.message.MContactHeader?)
  }

  /** A result the codec can give, read in a readable state, is decoded without a panic, but for the two exceptions. */
  lemma DecodePanicsIff(m: Machine, headerRead: bool, incoming: Incoming)
    requires Fit(m, headerRead) && Readable(m.state) && FromCodec(headerRead, incoming)
    ensures DecodeMessage(m, incoming).DecodePanics? <==>
            (incoming == Garbled(IoError) && !headerRead)
            || (incoming.Arrived? && incoming.message.MXferAck? && HasTracker(m.state)
                && m.state.tracker.transfer.id != incoming.message.ack.id)
  {
  }

  lemma DecodeKeepsFit(m: Machine, headerRead: bool, keepalives: bool, incoming: Incoming)
    requires Fit(m, headerRead) && KeepaliveFit(m, keepalives)
    requires Readable(m.state) && FromCodec(headerRead, incoming) && DecodeMessage(m, incoming).Decodes?
    ensures var d := DecodeMessage(m, incoming);
            && (d.result != Refused(MessageError(InvalidAckValue)) ==>
                  Fit(d.machine, HeaderRead'(headerRead, incoming)) && KeepaliveFit(d.machine, keepalives))
            && (d.result.Accepted? && d.result.message.MXferSegment? ==>
                  d.machine.state.SessionEstablished? || d.machine.state.SendXferSegments?)
            && (d.result.Accepted? && d.result.message.MSessInit? ==>
                  ContactHeaderDone(Core(d.machine.state)))
  {
    if m.state.PassiveWaitContactHeader? || m.state.ActiveWaitContactHeader? {
    } else if incoming.Arrived? {
      hide DecodeContact, DecodeGarbled;
      ArrivedKeepsFit(m, keepalives, incoming.message);
    } else {
      hide DecodeContact, DecodeArrived;
    }
  }

  lemma ArrivedKeepsFit(m: Machine, keepalives: bool, msg: Message)
    requires Fit(m, true) && KeepaliveFit(m, keepalives)
    requires Readable(m.state) && DecodeArrived(m, msg).Decodes?
    ensures var d := DecodeArrived(m, msg);
            && (d.result != Refused(MessageError(InvalidAckValue)) ==>
                  Fit(d.machine, true) && KeepaliveFit(d.machine, keepalives))
            && (d.result.Accepted? && d.result.message.MXferSegment? ==>
                  d.machine.state.SessionEstablished? || d.machine.state.SendXferSegments?)
            && (d.result.Accepted? && d.result.message.MSessInit? ==>
                  ContactHeaderDone(Core(d.machine.state)))
  {
    if !msg.MXferAck? {
      hide DecodeAck;
    }
  }

  /** A writable state sends and completes; the position arithmetic stays below 2^64. */
  lemma SendKeepsFit(m: Machine, headerRead: bool, keepalives: bool)
    requires Fit(m, headerRead) && KeepaliveFit(m, keepalives)
    requires GetInterests(m.state).Some? && GetInterests(m.state).value.writable
    ensures SendMessage(m).Sends?
    ensures Fit(SendMessage(m).machine, headerRead) && KeepaliveFit(SendMessage(m).machine, keepalives)
  {
    hide NextSegment;
    if m.state.SendXferSegments? {
      FeedKeepsFit(m, headerRead, keepalives);
    }
  }

  lemma FeedKeepsFit(m: Machine, headerRead: bool, keepalives: bool)
    requires Fit(m, headerRead) && KeepaliveFit(m, keepalives)
    requires m.state.SendXferSegments? && m.state.tracker.pos < |m.state.tracker.transfer.data|
    ensures m.state.tracker.pos + m.peerSessInit.value.segmentMru < 0x1_0000_0000_0000_0000
    ensures FeedSegment(m).Sends? && FeedSegment(m).machine.state.SendXferSegments?
    ensures Fit(FeedSegment(m).machine, headerRead) && KeepaliveFit(FeedSegment(m).machine, keepalives)
  {
  }

  lemma WriteKeepsEquipped(s: Session, cancelled: bool)
    requires Good(s) && Enabled(s, if cancelled then WriteCancelled else Write)
    ensures var o := Branch(s, if cancelled then WriteCancelled else Write);
            o.Stepped? && Equipped(o.session)
  {
    hide SendMessage, FeedSegment, Fit, KeepaliveFit;
    if cancelled {
      FeedKeepsFit(s.m, s.headerRead, s.keepaliveInitialized);
    } else {
      SendKeepsFit(s.m, s.headerRead, s.keepaliveInitialized);
    }
  }

  lemma OtherKeepsEquipped(s: Session, ev: Event)
    requires Good(s) && Enabled(s, ev) && !ev.Read? && !ev.Write? && !ev.WriteCancelled?
    ensures Branch(s, ev).StepPanics? <==> BadInput(s, ev)
    ensures Branch(s, ev).Stepped? ==> Branch(s, ev).session.ended || Equipped(Branch(s, ev).session)
  {
  }

  lemma SettleKeepsGood(s: Session)
    requires s.ended || Equipped(s)
    ensures Settle(s).Stepped? && Good(Settle(s).session)
  {
  }

  /** In every good session, an enabled event makes the driver panic exactly on a bad input, and otherwise leads to
      a good session: readable states decode, writable states send and complete, every accessor and request finds
      the state and the session data it needs, and no placeholder state is left behind. */
  lemma StepKeepsGood(s: Session, ev: Event)
    requires Good(s) && Enabled(s, ev)
    ensures Step(s, ev).StepPanics? <==> BadInput(s, ev)
    ensures Step(s, ev).Stepped? ==> Good(Step(s, ev).session)
  {
    hide Good, Enabled, Branch, Settle, ReadStep, BadInput, Equipped;
    assert BadInput(s, ev) ==> !ev.Write? && !ev.WriteCancelled? by {
      BadInputKinds(s, ev);
    }
    if ev.Read? {
      ReadKeepsEquipped(s, ev.incoming, ev.certificateOk);
      BranchRead(s, ev);
    } else if ev.Write? || ev.WriteCancelled? {
      WriteKeepsEquipped(s, ev.WriteCancelled?);
    } else {
      OtherKeepsEquipped(s, ev);
    }
    if Branch(s, ev).Stepped? {
      SettleKeepsGood(Branch(s, ev).session);
    }
  }

  lemma BadInputKinds(s: Session, ev: Event)
    ensures BadInput(s, ev) ==> ev.Read? || ev.Request?
  {
  }

  lemma BranchRead(s: Session, ev: Event)
    requires ev.Read?
    ensures Branch(s, ev) == ReadStep(s, ev.incoming, ev.certificateOk)
  {
  }

  /** Whole runs: every session a run reaches is good, and a run can only panic at a bad input. */
  lemma {:induction false} RunStaysGood(s: Session, evs: seq<Event>)
    requires Good(s)
    ensures Run(s, evs).Ran? ==> Good(Run(s, evs).session)
    ensures Run(s, evs).RunPanics? ==>
              exists k :: 0 <= k < |evs| && Run(s, evs[..k]).Ran? && BadInput(Run(s, evs[..k]).session, evs[k])
    decreases |evs|
  {
    hide Good, Enabled, Step, BadInput;
    if evs != [] && Enabled(s, evs[0]) {
      StepKeepsGood(s, evs[0]);
      if Step(s, evs[0]).StepPanics? {
        assert evs[..0] == [];
        assert Run(s, evs[..0]) == Ran(s) && BadInput(s, evs[0]);
      } else {
        var s' := Step(s, evs[0]).session;
        RunStaysGood(s', evs[1..]);
        if Run(s', evs[1..]).RunPanics? {
          var k :| 0 <= k < |evs[1..]| && Run(s', evs[1..][..k]).Ran?
                   && BadInput(Run(s', evs[1..][..k]).session, evs[1..][k]);
          assert evs[..k + 1][1..] == evs[1..][..k] && evs[..k + 1][0] == evs[0];
          assert Run(s, evs[..k + 1]) == Run(s', evs[1..][..k]);
          assert evs[k + 1] == evs[1..][k];
        }
      }
    }
  }

  /** A new session, active or passive, is good: with `RunStaysGood` this covers every reachable session. */
  lemma NewSessionIsGood(active: bool, nodeId: bytes, canTls: bool)
    ensures Good(NewSession(active, nodeId, canTls))
    ensures Settle(NewSession(active, nodeId, canTls)) == Stepped(NewSession(active, nodeId, canTls))
  {
  }

  /** Over every run of a new session, against any peer: the driver and the machine agree, and a panic needs a bad
      input. */
  lemma RunsPanicOnlyOnBadInput(active: bool, nodeId: bytes, canTls: bool, evs: seq<Event>)
    ensures var s, o := NewSession(active, nodeId, canTls), Run(NewSession(active, nodeId, canTls), evs);
            && (o.Ran? ==> Good(o.session))
            && (o.RunPanics? ==>
                  exists k :: 0 <= k < |evs| && Run(s, evs[..k]).Ran? && BadInput(Run(s, evs[..k]).session, evs[k]))
  {
    hide Run, Good, BadInput, NewSession;
    NewSessionIsGood(active, nodeId, canTls);
    RunStaysGood(NewSession(active, nodeId, canTls), evs);
  }
}
