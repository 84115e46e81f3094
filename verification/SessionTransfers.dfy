/** Transfers that go through: from an idle session, a request is cut, written and reported once the peer acknowledges
    it, and the segments of a transfer are acknowledged one by one and passed up as a whole. */
module SessionTransfers {
  import opened Bytes
  import opened Messages
  import opened StateMachine
  import opened Session
  import opened SessionSafety
  import opened SessionSegmentation
  import opened Rulebook
  import opened RuledSessions
  import opened SessionEvents
  import opened SessionOpening

  /** An established session between transfers. */
  predicate Idle(s: Session) {
    && Good(s) && !s.ended && s.m.state.SessionEstablished? && s.tlsInitialized && s.keepaliveInitialized && s.announced
    && s.resultFor.None?
  }

  lemma OpenedIsIdle(me: Me, header: Message, init: SessInit, log: seq<Entry>)
    requires header.MContactHeader?
    ensures Idle(Opened(me, header, init, log))
  {
  }

  // ----- sending

  /** The session while its current transfer has been written up to pos. */
  function SendingAt(s: Session, data: bytes, pos: nat, log: seq<Entry>): Session
    requires s.m.lastUsedTransferId < 0xFFFF_FFFF_FFFF_FFFF
  {
    var id := s.m.lastUsedTransferId;
    s.(m := s.m.(state := SendXferSegments(TransferTracker(Transfer(id, data), pos, 0)), lastUsedTransferId := id + 1),
       resultFor := Some(id), started := s.started + [data], log := log)
  }

  predicate Takes(s: Session, data: bytes) {
    && Idle(s) && s.m.peerSessInit.Some? && 0 < |data| <= s.m.peerSessInit.value.transferMru
    && |data| < 0x8000_0000_0000_0000 && s.m.peerSessInit.value.segmentMru > 0
    && s.m.lastUsedTransferId < 0xFFFF_FFFF_FFFF_FFFF
  }

  lemma RequestStarts(s: Session, data: bytes)
    requires Takes(s, data)
    ensures Enabled(s, Request(data)) && Step(s, Request(data)) == Stepped(SendingAt(s, data, 0, s.log))
  {
    hide ShouldUseTls;
  }

  lemma SegmentOut(s: Session, data: bytes, pos: nat, log: seq<Entry>)
    requires Takes(s, data) && pos < |data| && (0 < pos ==> s.m.peerSessInit.value.segmentMru < |data|)
    ensures var s1 := SendingAt(s, data, pos, log);
            var mru := s.m.peerSessInit.value.segmentMru;
            var tt := TransferTracker(Transfer(s.m.lastUsedTransferId, data), pos, 0);
            && Enabled(s1, Write)
            && Step(s1, Write)
               == Stepped(SendingAt(s, data, SegmentEnd(tt, mru), log + [Out(MXferSegment(NextSegment(tt, mru)))]))
  {
    hide ShouldUseTls, KeepaliveInterval, NextSegment;
  }

  /** The acknowledgement of the whole transfer. */
  function FinalAck(s: Session, data: bytes, flags: SegmentFlags): Message
    requires |data| < 0x8000_0000_0000_0000
  {
    MXferAck(XferAck(flags, s.m.lastUsedTransferId, |data|))
  }

  /** The session after its transfer was acknowledged: idle again, and the transfer reported. */
  function Sent(s: Session, data: bytes, log: seq<Entry>): Session
    requires s.m.lastUsedTransferId < 0xFFFF_FFFF_FFFF_FFFF
  {
    var id := s.m.lastUsedTransferId;
    s.(m := s.m.(lastUsedTransferId := id + 1), started := s.started + [data], reported := s.reported + [id], log := log)
  }

  lemma FinalAckIn(s: Session, data: bytes, flags: SegmentFlags, log: seq<Entry>)
    requires Takes(s, data)
    ensures var s1, ev := SendingAt(s, data, |data|, log), Read(Arrived(FinalAck(s, data, flags)), true);
            Enabled(s1, ev) && Step(s1, ev) == Stepped(Sent(s, data, log + [In(FinalAck(s, data, flags))]))
  {
    hide ShouldUseTls;
  }

  function Times(n: nat, ev: Event): (evs: seq<Event>)
    ensures |evs| == n
  {
    if n == 0 then [] else [ev] + Times(n - 1, ev)
  }

  function Outs(cs: seq<XferSegment>): seq<Entry> {
    if cs == [] then [] else [Out(MXferSegment(cs[0]))] + Outs(cs[1..])
  }

  /** Writing goes on until all of the transfer is written. */
  lemma {:induction false} WritesAll(s: Session, data: bytes, pos: nat, log: seq<Entry>, evs: seq<Event>)
    requires Takes(s, data) && pos <= |data| && (0 < pos < |data| ==> s.m.peerSessInit.value.segmentMru < |data|)
    ensures var cs := Chunks(s.m.lastUsedTransferId, data, s.m.peerSessInit.value.segmentMru, pos);
            Run(SendingAt(s, data, pos, log), Times(|cs|, Write) + evs) == Run(SendingAt(s, data, |data|, log + Outs(cs)), evs)
    decreases |data| - pos
  {
    hide Enabled, Step, Run, SendingAt, Idle, NextSegment;
    var mru := s.m.peerSessInit.value.segmentMru;
    var cs := Chunks(s.m.lastUsedTransferId, data, mru, pos);
    if pos == |data| {
      assert log + Outs(cs) == log && Times(|cs|, Write) + evs == evs;
    } else {
      var tt := TransferTracker(Transfer(s.m.lastUsedTransferId, data), pos, 0);
      var end := SegmentEnd(tt, mru);
      var log' := log + [Out(MXferSegment(NextSegment(tt, mru)))];
      SegmentOut(s, data, pos, log);
      WritesAll(s, data, end, log', evs);
      assert cs[1..] == Chunks(s.m.lastUsedTransferId, data, mru, end);
      RunCons(SendingAt(s, data, pos, log), Write, Times(|cs| - 1, Write) + evs);
      assert [Write] + (Times(|cs| - 1, Write) + evs) == Times(|cs|, Write) + evs;
      assert log' + Outs(cs[1..]) == log + Outs(cs);
    }
  }

  /** The request, the writes, and the last acknowledgement. */
  function SendSchedule(s: Session, data: bytes, flags: SegmentFlags): seq<Event>
    requires Takes(s, data)
  {
    [Request(data)]
    + (Times(|Chunks(s.m.lastUsedTransferId, data, s.m.peerSessInit.value.segmentMru, 0)|, Write)
       + [Read(Arrived(FinalAck(s, data, flags)), true)])
  }

  /** Whatever the peer's limits, an idle session that is asked to send what the peer takes writes it in the fewest
      segments, reports it once the peer has it all, and is idle again. */
  lemma TransferIsSent(s: Session, data: bytes, flags: SegmentFlags)
    requires Takes(s, data)
    ensures var cs := Chunks(s.m.lastUsedTransferId, data, s.m.peerSessInit.value.segmentMru, 0);
            var s' := Sent(s, data, s.log + Outs(cs) + [In(FinalAck(s, data, flags))]);
            Run(s, SendSchedule(s, data, flags)) == Ran(s') && Idle(s')
  {
    hide Enabled, Step, Run, SendingAt, Chunks, Good;
    var cs := Chunks(s.m.lastUsedTransferId, data, s.m.peerSessInit.value.segmentMru, 0);
    var ack := Read(Arrived(FinalAck(s, data, flags)), true);
    RequestStarts(s, data);
    RunCons(s, Request(data), Times(|cs|, Write) + [ack]);
    WritesAll(s, data, 0, s.log, [ack]);
    FinalAckIn(s, data, flags, s.log + Outs(cs));
    var s' := Sent(s, data, s.log + Outs(cs) + [In(FinalAck(s, data, flags))]);
    RunCons(SendingAt(s, data, |data|, s.log + Outs(cs)), ack, []);
    assert [ack] + [] == [ack];
    RunNothing(s');
    SentIsIdle(s, data, s'.log);
  }

  lemma SentIsIdle(s: Session, data: bytes, log: seq<Entry>)
    requires Takes(s, data)
    ensures Idle(Sent(s, data, log))
  {
  }

  // ----- receiving

  /** The acknowledgement of one more segment of a transfer of which n bytes came before. */
  function AckOf(x: XferSegment, n: nat): Message {
    MXferAck(XferAck(x.flags, x.id, Low64(n + |x.data|)))
  }

  function Having(s: Session, receiving: Option<Transfer>, delivered: seq<Transfer>, log: seq<Entry>): Session {
    s.(receiving := receiving, delivered := delivered, log := log)
  }

  function Gathered(receiving: Option<Transfer>): bytes {
    if receiving.Some? then receiving.value.data else []
  }

  /** A segment of the transfer that is arriving is read and acknowledged. */
  lemma SegmentTaken(s: Session, x: XferSegment, evs: seq<Event>)
    requires Idle(s) && (s.receiving.Some? ==> s.receiving.value.id == x.id)
    ensures var t := Transfer(x.id, Gathered(s.receiving) + x.data);
            var log := s.log + [In(MXferSegment(x)), Out(AckOf(x, |Gathered(s.receiving)|))];
            var s' := Having(s, if x.flags.end then None else Some(t), s.delivered + if x.flags.end then [t] else [], log);
            && Run(s, [Read(Arrived(MXferSegment(x)), true), Write] + evs) == Run(s', evs) && Idle(s')
  {
    hide Run, Low64, Good;
    var read := Read(Arrived(MXferSegment(x)), true);
    SegmentIn(s, x);
    var t := Transfer(x.id, Gathered(s.receiving) + x.data);
    var ack := XferAck(x.flags, x.id, Low64(|t.data|));
    var delivered := s.delivered + if x.flags.end then [t] else [];
    var receiving := if x.flags.end then None else Some(t);
    AckGoesOut(Having(s, receiving, delivered, s.log + [In(MXferSegment(x))]), s, ack);
    var s1 := Step(s, read).session;
    RunCons(s, read, [Write] + evs);
    RunCons(s1, Write, evs);
    assert [read] + ([Write] + evs) == [read, Write] + evs;
    assert s.log + [In(MXferSegment(x))] + [Out(MXferAck(ack))] == s.log + [In(MXferSegment(x)), Out(MXferAck(ack))];
    HavingIsIdle(s, receiving, delivered, s.log + [In(MXferSegment(x)), Out(MXferAck(ack))]);
  }

  lemma HavingIsIdle(s: Session, receiving: Option<Transfer>, delivered: seq<Transfer>, log: seq<Entry>)
    requires Idle(s)
    ensures Idle(Having(s, receiving, delivered, log))
  {
  }

  lemma SegmentIn(s: Session, x: XferSegment)
    requires Idle(s) && (s.receiving.Some? ==> s.receiving.value.id == x.id)
    ensures var read := Read(Arrived(MXferSegment(x)), true);
            var t := Transfer(x.id, Gathered(s.receiving) + x.data);
            var s1 := Having(s, if x.flags.end then None else Some(t), s.delivered + if x.flags.end then [t] else [],
                             s.log + [In(MXferSegment(x))]);
            && Enabled(s, read)
            && Step(s, read) == Stepped(s1.(m := s.m.(state := SendXferAck(XferAck(x.flags, x.id, Low64(|t.data|))))))
  {
    hide ShouldUseTls, KeepaliveInterval, AsU64, Low64;
    SixtyFourBits(|Gathered(s.receiving) + x.data|);
    assert s.delivered + [] == s.delivered;
  }

  lemma AckGoesOut(s1: Session, s: Session, ack: XferAck)
    requires Idle(s) && s1 == Having(s, s1.receiving, s1.delivered, s1.log)
    ensures var s2 := s1.(m := s.m.(state := SendXferAck(ack)));
            Enabled(s2, Write) && Step(s2, Write) == Stepped(s1.(log := s1.log + [Out(MXferAck(ack))]))
  {
    hide ShouldUseTls;
  }

  function ReadSchedule(cs: seq<XferSegment>): seq<Event> {
    if cs == [] then [] else [Read(Arrived(MXferSegment(cs[0])), true), Write] + ReadSchedule(cs[1..])
  }

  /** Each segment and its acknowledgement, behind n bytes of the same transfer. */
  function Acknowledged(cs: seq<XferSegment>, n: nat): seq<Entry> {
    if cs == [] then [] else
    [In(MXferSegment(cs[0])), Out(AckOf(cs[0], n))] + Acknowledged(cs[1..], n + |cs[0].data|)
  }

  /** The rest of one transfer: one id, END on the last segment and on no other. */
  predicate Rest(cs: seq<XferSegment>, id: u64) {
    cs != [] && forall i :: 0 <= i < |cs| ==> cs[i].id == id && (cs[i].flags.end <==> i == |cs| - 1)
  }

  lemma RestOfRest(cs: seq<XferSegment>, id: u64)
    requires Rest(cs, id)
    ensures cs != [] && cs[0].id == id && (cs[0].flags.end <==> |cs| == 1) && (|cs| > 1 ==> Rest(cs[1..], id))
  {
    assert forall i :: 0 <= i < |cs[1..]| ==> cs[1..][i] == cs[i + 1];
  }

  lemma Joins<T>(a: seq<T>, b: seq<T>, c: seq<T>)
    ensures (a + b) + c == a + (b + c)
  {
  }

  /** The segments of a transfer are acknowledged one by one; after the last the whole transfer has been passed up. */
  lemma {:induction false} TransferIsReceived(s: Session, cs: seq<XferSegment>, id: u64)
    requires Idle(s) && Rest(cs, id) && (s.receiving.Some? ==> s.receiving.value.id == id)
    ensures var s' := Having(s, None, s.delivered + [Transfer(id, Gathered(s.receiving) + Payload(cs))],
                             s.log + Acknowledged(cs, |Gathered(s.receiving)|));
            Run(s, ReadSchedule(cs)) == Ran(s') && Idle(s')
    decreases |cs|
  {
    hide Run, Idle, Low64, Rest;
    RestOfRest(cs, id);
    var x, got := cs[0], Gathered(s.receiving);
    var rest := ReadSchedule(cs[1..]);
    SegmentTaken(s, x, rest);
    var log := s.log + [In(MXferSegment(x)), Out(AckOf(x, |got|))];
    var t := Transfer(id, got + x.data);
    if |cs| == 1 {
      RunNothing(Having(s, None, s.delivered + [t], log));
      assert got + Payload(cs) == got + x.data && Acknowledged(cs[1..], |got| + |x.data|) == [];
      assert s.log + Acknowledged(cs, |got|) == log;
    } else {
      var s1 := Having(s, Some(t), s.delivered, log);
      assert s.delivered + [] == s.delivered;
      TransferIsReceived(s1, cs[1..], id);
      Joins(got, x.data, Payload(cs[1..]));
      Joins(s.log, [In(MXferSegment(x)), Out(AckOf(x, |got|))], Acknowledged(cs[1..], |got| + |x.data|));
    }
  }

  lemma {:induction false} LastAcknowledged(cs: seq<XferSegment>, n: nat)
    requires cs != []
    ensures var log := Acknowledged(cs, n);
            && |log| > 0 && log[|log| - 1].Out? && log[|log| - 1].message.MXferAck?
            && log[|log| - 1].message.ack == XferAck(cs[|cs| - 1].flags, cs[|cs| - 1].id, Low64(n + |Payload(cs)|))
    decreases |cs|
  {
    hide Low64;
    if |cs| == 1 {
      assert cs[1..] == [] && Payload(cs) == cs[0].data + [];
    } else {
      LastAcknowledged(cs[1..], n + |cs[0].data|);
      assert cs[1..][|cs| - 2] == cs[|cs| - 1];
    }
  }

  /** What one idle session sends, another idle one receives: reading the segments the one writes, the other passes up
      exactly the data, and the last acknowledgement it writes is the one that lets the sender report the transfer. */
  lemma TransferCrosses(x: Session, y: Session, data: bytes)
    requires Takes(x, data) && Idle(y) && y.receiving.None?
    ensures var id := x.m.lastUsedTransferId;
            var cs := Chunks(id, data, x.m.peerSessInit.value.segmentMru, 0);
            var y' := Having(y, None, y.delivered + [Transfer(id, data)], y.log + Acknowledged(cs, 0));
            && cs != [] && Run(y, ReadSchedule(cs)) == Ran(y') && Idle(y') && |y'.log| > 0
            && y'.log[|y'.log| - 1] == Out(FinalAck(x, data, cs[|cs| - 1].flags))
            && Run(x, SendSchedule(x, data, cs[|cs| - 1].flags))
               == Ran(Sent(x, data, x.log + Outs(cs) + [In(FinalAck(x, data, cs[|cs| - 1].flags))]))
  {
    hide Run, Idle, Chunks, SendSchedule, Low64, Payload;
    var id, mru := x.m.lastUsedTransferId, x.m.peerSessInit.value.segmentMru;
    var cs := Chunks(id, data, mru, 0);
    SegmentationIsExact(id, data, mru, 0);
    assert data[0..] == data;
    SomeChunks(id, data, mru);
    TransferIsReceived(y, cs, id);
    assert [] + data == data;
    LastAcknowledged(cs, 0);
    assert Low64(|data|) == |data| by {
      SmallLength(|data|);
    }
    TransferIsSent(x, data, cs[|cs| - 1].flags);
  }

  lemma SmallLength(n: nat)
    requires n < 0x8000_0000_0000_0000
    ensures Low64(n) == n
  {
  }

  lemma SomeChunks(id: u64, data: bytes, mru: u64)
    requires mru >= 1 && data != []
    ensures Chunks(id, data, mru, 0) != []
  {
  }
}
