/** Segmentation of transfers, over every run against any peer that accepts non-empty segments. */
module SessionSegmentation {
  import opened Bytes
  import opened Messages
  import opened StateMachine
  import opened Session
  import opened SessionSafety
  import opened SessionTermination

  // ----- the segments of one transfer

  /** The segments of a transfer from position pos on, as the machine cuts them one at a time. */
  function Chunks(id: u64, data: bytes, mru: u64, pos: nat): seq<XferSegment>
    requires mru >= 1 && pos <= |data|
    decreases |data| - pos
  {
    if pos == |data| then [] else
    var tt := TransferTracker(Transfer(id, data), pos, 0);
    [NextSegment(tt, mru)] + Chunks(id, data, mru, SegmentEnd(tt, mru))
  }

  function Payload(cs: seq<XferSegment>): bytes {
    if cs == [] then [] else cs[0].data + Payload(cs[1..])
  }

  /** Each segment fits the limit and is not empty, START is on the first of the transfer only, END on the last. */
  predicate WellCut(cs: seq<XferSegment>, id: u64, mru: u64, first: bool) {
    forall i :: 0 <= i < |cs| ==>
      && cs[i].id == id && cs[i].extensions == [] && 1 <= |cs[i].data| <= mru
      && (cs[i].flags.start <==> first && i == 0) && (cs[i].flags.end <==> i == |cs| - 1)
  }

  lemma TimesGrows(x: nat, y: nat, m: nat)
    ensures x > y ==> x * m >= y * m + m
  {
    if x > y {
      var d: nat := x - y - 1;
      assert x * m == (y + 1 + d) * m == y * m + m + d * m;
      assert d * m >= 0;
    }
  }

  lemma QuotientUnique(a: nat, m: nat, q: nat)
    requires m >= 1 && q * m <= a < q * m + m
    ensures a / m == q
  {
    var r := a / m;
    assert a == r * m + a % m;
    TimesGrows(r, q, m);
    TimesGrows(q, r, m);
  }

  /** Taking one full segment off leaves one segment less to send. */
  lemma CeilingStep(n: nat, m: nat)
    requires m >= 1 && n > m
    ensures (n + m - 1) / m == (n - m + m - 1) / m + 1
  {
    var q := (n - 1) / m;
    assert n - 1 == q * m + (n - 1) % m;
    assert (q + 1) * m == q * m + m;
    QuotientUnique(n + m - 1, m, q + 1);
  }

  /** Any data, any limit: the segments carry exactly the data, are well cut, and are as few as the limit allows:
      ceil(n / mru) of them. */
  lemma {:induction false} SegmentationIsExact(id: u64, data: bytes, mru: u64, pos: nat)
    requires mru >= 1 && pos <= |data|
    ensures var cs := Chunks(id, data, mru, pos);
            && Payload(cs) == data[pos..]
            && WellCut(cs, id, mru, pos == 0)
            && |cs| == (|data| - pos + mru - 1) / mru
    decreases |data| - pos
  {
    var cs, n := Chunks(id, data, mru, pos), |data| - pos;
    if n == 0 {
      QuotientUnique(mru - 1, mru, 0);
    } else {
      var tt := TransferTracker(Transfer(id, data), pos, 0);
      var end := SegmentEnd(tt, mru);
      SegmentationIsExact(id, data, mru, end);
      assert data[pos..] == data[pos..end] + data[end..];
      var rest := Chunks(id, data, mru, end);
      assert cs[0] == NextSegment(tt, mru) && cs[1..] == rest;
      assert forall i :: 0 <= i < |rest| ==> cs[i + 1] == rest[i];
      if n <= mru {
        QuotientUnique(n + mru - 1, mru, 1);
      } else {
        CeilingStep(n, mru);
      }
    }
  }

  // ----- runs

  /** The segments of all transfers started, in order; transfer ids count from 0. */
  function AllChunks(started: seq<bytes>, mru: u64): seq<XferSegment>
    requires mru >= 1
  {
    if started == [] then [] else
    var k := |started| - 1;
    AllChunks(started[..k], mru) + Chunks(AsU64(k), started[k], mru, 0)
  }

  /** The segments written, in order. */
  function OutSegments(log: seq<Entry>): seq<XferSegment> {
    if log == [] then [] else
    var k := |log| - 1;
    OutSegments(log[..k]) + if OutSegment(log[k]) then [log[k].message.segment] else []
  }

  /** Segments written so far against the state: the tracker stands exactly where the written segments end. */
  ghost predicate Progress(c: States, started: seq<bytes>, written: seq<XferSegment>, mru: u64)
    requires mru >= 1
  {
    && written <= AllChunks(started, mru)
    && (HasTracker(c) ==>
          && started != []
          && c.tracker.transfer == Transfer(AsU64(|started| - 1), started[|started| - 1])
          && c.tracker.pos <= |c.tracker.transfer.data|
          && written + Chunks(c.tracker.transfer.id, c.tracker.transfer.data, mru, c.tracker.pos)
             == AllChunks(started, mru))
    && (Transferring(c) && !HasTracker(c) ==> written == AllChunks(started, mru))
  }

  ghost predicate Segments(m: Machine, started: seq<bytes>, written: seq<XferSegment>) {
    && m.lastUsedTransferId == |started|
    && (m.peerSessInit.None? || Handshaking(Core(m.state)) ==> started == [] && written == [])
    && (m.peerSessInit.Some? && m.peerSessInit.value.segmentMru >= 1 ==>
          Progress(Core(m.state), started, written, m.peerSessInit.value.segmentMru))
  }

  ghost predicate Segmented(s: Session) {
    Segments(s.m, s.started, OutSegments(s.log))
  }

  lemma AppendEntry(log: seq<Entry>, e: Entry)
    ensures OutSegments(log + [e]) == OutSegments(log) + if OutSegment(e) then [e.message.segment] else []
  {
    assert (log + [e])[..|log|] == log;
  }

  lemma DecodeKeepsSegments(m: Machine, incoming: Incoming, started: seq<bytes>, written: seq<XferSegment>)
    requires Fit(m, m.peerContactHeader.Some?) && Readable(m.state) && DecodeMessage(m, incoming).Decodes?
    requires Segments(m, started, written)
    ensures Segments(DecodeMessage(m, incoming).machine, started, written)
  {
    hide AllChunks, Chunks, DecodeArrived, Progress;
    if incoming.Arrived? && !m.state.PassiveWaitContactHeader? && !m.state.ActiveWaitContactHeader? {
      ArrivedKeepsSegments(m, incoming.message, started, written);
    } else if m.peerSessInit.Some? && m.peerSessInit.value.segmentMru >= 1 {
      ClosingKeepsProgress(Core(m.state), Core(DecodeMessage(m, incoming).machine.state), started, written,
                           m.peerSessInit.value.segmentMru);
    }
  }

  /** A state without a transfer under way only needs the written segments to be a prefix. */
  lemma ClosingKeepsProgress(c: States, c': States, started: seq<bytes>, written: seq<XferSegment>, mru: u64)
    requires mru >= 1 && Progress(c, started, written, mru) && (c' == c || !Transferring(c'))
    ensures Progress(c', started, written, mru)
  {
    hide AllChunks, Chunks;
  }

  lemma ArrivedKeepsSegments(m: Machine, msg: Message, started: seq<bytes>, written: seq<XferSegment>)
    requires Fit(m, m.peerContactHeader.Some?) && Readable(m.state) && DecodeArrived(m, msg).Decodes?
    requires Segments(m, started, written)
    ensures Segments(DecodeArrived(m, msg).machine, started, written)
  {
    hide AllChunks, Chunks, DecodeAck;
    NoTransfersNoChunks(DecodeArrived(m, msg).machine);
    if HasTracker(m.state) && msg.MXferAck? {
      AckReadKeepsSegments(m, msg.ack, started, written);
    }
  }

  lemma AckReadKeepsSegments(m: Machine, xa: XferAck, started: seq<bytes>, written: seq<XferSegment>)
    requires Fit(m, m.peerContactHeader.Some?) && m.state.SendXferSegments? && DecodeAck(m, xa).Decodes?
    requires Segments(m, started, written)
    ensures Segments(DecodeAck(m, xa).machine, started, written)
  {
    hide AllChunks, Chunks;
    if m.peerSessInit.value.segmentMru >= 1 {
      var t := m.state.tracker.transfer;
      NoChunksAtEnd(t.id, t.data, m.peerSessInit.value.segmentMru);
      assert written + [] == written;
    }
  }

  lemma NoChunksAtEnd(id: u64, data: bytes, mru: u64)
    requires mru >= 1
    ensures Chunks(id, data, mru, |data|) == []
  {
  }

  lemma NoTransfersNoChunks(m: Machine)
    ensures m.peerSessInit.Some? && m.peerSessInit.value.segmentMru >= 1 ==>
              AllChunks([], m.peerSessInit.value.segmentMru) == []
  {
  }

  lemma FeedKeepsSegments(m: Machine, started: seq<bytes>, written: seq<XferSegment>)
    requires Segments(m, started, written) && m.state.SendXferSegments? && FeedSegment(m).Sends?
    ensures FeedSegment(m).message.MXferSegment?
    ensures Segments(FeedSegment(m).machine, started, written + [FeedSegment(m).message.segment])
  {
    hide AllChunks;
    var tt, mru := m.state.tracker, m.peerSessInit.value.segmentMru;
    if mru >= 1 {
      var rest := Chunks(tt.transfer.id, tt.transfer.data, mru, SegmentEnd(tt, mru));
      assert written + ([NextSegment(tt, mru)] + rest) == written + [NextSegment(tt, mru)] + rest;
    }
  }

  lemma SendKeepsSegments(m: Machine, started: seq<bytes>, written: seq<XferSegment>)
    requires Segments(m, started, written) && SendMessage(m).Sends?
    ensures var o := SendMessage(m);
            Segments(o.machine, started, written + if o.message.MXferSegment? then [o.message.segment] else [])
  {
    hide AllChunks, Chunks, NextSegment, FeedSegment;
    assert written + [] == written;
    NoTransfersNoChunks(m);
    if m.state.SendXferSegments? {
      FeedOutcome(m);
      FeedKeepsSegments(m, started, written);
      var m' := FeedSegment(m).machine;
      if m.peerSessInit.Some? && m.peerSessInit.value.segmentMru >= 1 {
        var tt := m'.state.tracker;
        NoChunksAtEnd(tt.transfer.id, tt.transfer.data, m.peerSessInit.value.segmentMru);
        var all := written + [FeedSegment(m).message.segment];
        assert all + [] == all;
      }
    }
  }

  lemma RequestKeepsSegments(m: Machine, started: seq<bytes>, written: seq<XferSegment>, data: bytes)
    requires Segments(m, started, written) && m.state.SessionEstablished? && SendTransfer(m, data).Started?
    ensures Segments(SendTransfer(m, data).machine, started + [data], written)
  {
    hide Chunks;
    assert (started + [data])[..|started|] == started;
  }

  lemma ReadKeepsSegmented(s: Session, incoming: Incoming, certificateOk: bool)
    requires Good(s) && !s.ended && Segmented(s) && Readable(s.m.state)
    requires ReadStep(s, incoming, certificateOk).Stepped?
    ensures Segmented(ReadStep(s, incoming, certificateOk).session)
  {
    hide DecodeMessage, HandleResult, Segments, AckQueued, OutSegments, Fit, KeepaliveFit, Readable;
    DecodeKeepsSegments(s.m, incoming, s.started, OutSegments(s.log)) by {
      HeaderKnown(s);
    }
    var d := DecodeMessage(s.m, incoming);
    var s' := AfterDecode(s, d.machine, incoming);
    if incoming.Arrived? {
      AppendEntry(s.log, In(incoming.message));
      assert OutSegments(s.log) + [] == OutSegments(s.log);
    }
    HandleFrame(s', d.result, certificateOk);
    AckKeepsSegments(s'.m, HandleResult(s', d.result, certificateOk).session.m, s'.started, OutSegments(s'.log));
  }

  lemma HeaderKnown(s: Session)
    requires Good(s) && !s.ended
    ensures Fit(s.m, s.m.peerContactHeader.Some?)
  {
  }

  lemma AckKeepsSegments(m: Machine, m': Machine, started: seq<bytes>, written: seq<XferSegment>)
    requires Segments(m, started, written) && AckQueued(m, m')
    ensures Segments(m', started, written)
  {
    hide AllChunks, Chunks;
  }

  lemma CloseKeepsSegments(m: Machine, started: seq<bytes>, written: seq<XferSegment>, reason: TermReason)
    requires Segments(m, started, written) && CloseConnection(m, Some(reason)).Some?
    ensures Segments(CloseConnection(m, Some(reason)).value, started, written)
  {
    hide AllChunks, Chunks;
  }

  lemma KeepaliveKeepsSegments(m: Machine, started: seq<bytes>, written: seq<XferSegment>)
    requires Segments(m, started, written)
    ensures Segments(m.(state := SendKeepalive(m.state)), started, written)
  {
    hide AllChunks, Chunks;
  }

  lemma OtherKeepsSegmented(s: Session, ev: Event)
    requires Segmented(s) && Enabled(s, ev) && !ev.Read? && Branch(s, ev).Stepped?
    ensures Segmented(Branch(s, ev).session)
  {
    hide Segments, OutSegments, SendMessage, FeedSegment, SendTransfer, CloseConnection, KeepaliveInterval, ReadStep;
    var written := OutSegments(s.log);
    match ev {
      case Write =>
        if SendMessage(s.m).Sends? {
          SendKeepsSegments(s.m, s.started, written);
          AppendEntry(s.log, Out(SendMessage(s.m).message));
        }
      case WriteCancelled =>
        if FeedSegment(s.m).Sends? {
          FeedKeepsSegments(s.m, s.started, written);
          AppendEntry(s.log, Out(FeedSegment(s.m).message));
        }
      case Request(data) =>
        if SendTransfer(s.m, data).Started? {
          RequestKeepsSegments(s.m, s.started, written, data);
        }
      case Tick(idle) =>
        var m' := s.m;
        if s.m.state.SessionEstablished? && idle {
          CloseKeepsSegments(s.m, s.started, written, TERM_IDLE_TIMEOUT);
          m' := CloseConnection(s.m, Some(TERM_IDLE_TIMEOUT)).value;
        }
        KeepaliveKeepsSegments(m', s.started, written);
      case CloseRequest => CloseKeepsSegments(s.m, s.started, written, TERM_RESOURCE_EXHAUSTION);
      case _ =>
    }
  }

  lemma StepKeepsSegmented(s: Session, ev: Event)
    requires Good(s) && Segmented(s) && Enabled(s, ev) && Step(s, ev).Stepped?
    ensures Segmented(Step(s, ev).session)
  {
    hide Settle, Branch, Segments, OutSegments, Good;
    if ev.Read? {
      BranchRead(s, ev);
      ReadKeepsSegmented(s, ev.incoming, ev.certificateOk);
    } else {
      OtherKeepsSegmented(s, ev);
    }
    SettleFrame(Branch(s, ev).session);
  }

  lemma {:induction false} RunKeepsSegmented(s: Session, evs: seq<Event>)
    requires Good(s) && Segmented(s) && Run(s, evs).Ran?
    ensures Segmented(Run(s, evs).session)
    decreases |evs|
  {
    hide Enabled, Step, Good, Segmented;
    if evs != [] {
      StepKeepsGood(s, evs[0]);
      StepKeepsSegmented(s, evs[0]);
      RunKeepsSegmented(Step(s, evs[0]).session, evs[1..]);
    }
  }

  lemma NewSessionSegmented(active: bool, nodeId: bytes, canTls: bool)
    ensures Segmented(NewSession(active, nodeId, canTls))
  {
  }

  /** Over every run of a new session, against any peer whose segment limit is at least 1: the segments written are
      always a prefix of the exact segmentation of the transfers started, and all of it whenever the session is back to
      established. */
  lemma RunsSegmentExactly(active: bool, nodeId: bytes, canTls: bool, evs: seq<Event>)
    requires Run(NewSession(active, nodeId, canTls), evs).Ran?
    ensures var s := Run(NewSession(active, nodeId, canTls), evs).session;
            s.m.peerSessInit.Some? && s.m.peerSessInit.value.segmentMru >= 1 ==>
              && OutSegments(s.log) <= AllChunks(s.started, s.m.peerSessInit.value.segmentMru)
              && (s.m.state.SessionEstablished? ==>
                    OutSegments(s.log) == AllChunks(s.started, s.m.peerSessInit.value.segmentMru))
  {
    hide Run, Good, OutSegments, AllChunks, Chunks, NewSession;
    NewSessionIsGood(active, nodeId, canTls);
    NewSessionSegmented(active, nodeId, canTls);
    RunKeepsSegmented(NewSession(active, nodeId, canTls), evs);
  }

  /** A peer that announces the segment limit 0 gets empty segments and no progress: the limit of 1 is needed. */
  lemma ZeroLimitMakesNoProgress(m: Machine)
    requires m.state.SendXferSegments? && m.peerSessInit.Some? && m.peerSessInit.value.segmentMru == 0
    requires m.state.tracker.pos < |m.state.tracker.transfer.data| < 0x8000_0000_0000_0000
    ensures SendMessage(m).Sends? && SendMessage(m).machine == m
    ensures SendMessage(m).message.MXferSegment? && SendMessage(m).message.segment.data == []
  {
    var tt := m.state.tracker;
    assert tt.transfer.data[tt.pos..tt.pos] == [];
  }
}
