/** One direction of data transfer between two sessions: the sender's tracker, the segments in flight, the receiver's
    accumulation, and the acknowledgements on their way back.

    The state keeps just these parts of the two sessions; its transitions are what the sessions' steps do to them. */
module TransferLink {
  import opened Bytes
  import opened Messages
  import opened StateMachine
  import opened Session

  /** `sndLive` and `rcvLive`: the sender and the receiver have not started to close. */
  datatype Link = Link(
    sndLive: bool, tracker: Option<TransferTracker>, started: seq<bytes>,
    segs: seq<XferSegment>,
    rcvLive: bool, receiving: Option<Transfer>, delivered: seq<Transfer>, pending: Option<XferAck>,
    acks: seq<XferAck>)

  /** What the receiver would end up with if it read all segments in flight. */
  datatype Future = Future(receiving: Option<Transfer>, passedUp: seq<Transfer>, acks: seq<XferAck>)

  function Opt<T>(o: Option<T>): seq<T> {
    if o.Some? then [o.value] else []
  }

  function Flow(receiving: Option<Transfer>, segs: seq<XferSegment>): Future
    decreases |segs|
  {
    if segs == [] then Future(receiving, [], []) else
    var r := Receive(receiving, segs[0]);
    var f := Flow(r.receiving, segs[1..]);
    Future(f.receiving, r.passedUp + f.passedUp, Opt(r.ack) + f.acks)
  }

  /** Transfers as the receiver should pass them up: in order, numbered from 0. */
  function Whole(started: seq<bytes>): (ts: seq<Transfer>)
    ensures |ts| == |started|
    ensures forall i :: 0 <= i < |ts| ==> ts[i] == Transfer(AsU64(i), started[i])
  {
    seq(|started|, i requires 0 <= i < |started| => Transfer(AsU64(i), started[i]))
  }

  function Last(started: seq<bytes>): bytes
    requires started != []
  {
    started[|started| - 1]
  }

  predicate IsCurrent(tt: TransferTracker, started: seq<bytes>) {
    && started != []
    && tt.transfer == Transfer(AsU64(|started| - 1), Last(started))
    && tt.pos <= |tt.transfer.data| < 0x8000_0000_0000_0000
  }

  /** Where the receiver stands once it has read everything sent of the current transfer. */
  predicate Arrived(f: Future, delivered: seq<Transfer>, tt: TransferTracker, started: seq<bytes>)
    requires IsCurrent(tt, started)
  {
    var k := |started| - 1;
    if tt.pos == 0 then f.receiving == None && delivered + f.passedUp == Whole(started[..k])
    else if tt.pos < |tt.transfer.data| then
      f.receiving == Some(Transfer(tt.transfer.id, tt.transfer.data[..tt.pos]))
      && delivered + f.passedUp == Whole(started[..k])
    else f.receiving == None && delivered + f.passedUp == Whole(started)
  }

  /** Acknowledgements of one transfer with strictly increasing lengths in (lo, hi]. */
  predicate Chain(lo: int, acks: seq<XferAck>, id: u64, hi: int)
    decreases |acks|
  {
    acks == [] || (acks[0].id == id && lo < acks[0].length <= hi && Chain(acks[0].length, acks[1..], id, hi))
  }

  function ChainEnd(lo: int, acks: seq<XferAck>): int {
    if acks == [] then lo else acks[|acks| - 1].length
  }

  /** The acknowledgements still to reach the sender, in order: in flight, queued, and yet to be caused. */
  function Outstanding(l: Link): seq<XferAck> {
    l.acks + Opt(l.pending) + if l.rcvLive then Flow(l.receiving, l.segs).acks else []
  }

  predicate FullyAcked(l: Link, n: nat) {
    exists i :: 0 <= i < |l.acks + Opt(l.pending)| && (l.acks + Opt(l.pending))[i].length == n
  }

  ghost predicate Inv(l: Link) {
    && l.delivered <= Whole(l.started)
    && (l.tracker.Some? ==> l.sndLive && IsCurrent(l.tracker.value, l.started))
    && (l.sndLive && l.tracker.None? ==>
          && l.segs == [] && l.acks == [] && l.pending == None
          && l.delivered == Whole(l.started) && (l.rcvLive ==> l.receiving == None))
    && (!l.rcvLive ==> l.pending == None)
    && (l.rcvLive && !l.sndLive ==> l.delivered + Flow(l.receiving, l.segs).passedUp <= Whole(l.started))
    && (l.tracker.Some? ==> TrackerInv(l))
  }

  ghost predicate TrackerInv(l: Link)
    requires l.tracker.Some? && IsCurrent(l.tracker.value, l.started)
  {
    var tt, f := l.tracker.value, Flow(l.receiving, l.segs);
    && Chain(tt.posAcked, Outstanding(l), tt.transfer.id, tt.pos)
    && (l.rcvLive ==> |f.acks| == |l.segs| && Arrived(f, l.delivered, tt, l.started)
                      && ChainEnd(tt.posAcked, Outstanding(l)) == tt.pos)
    && (FullyAcked(l, |tt.transfer.data|) ==> l.segs == [] && l.delivered == Whole(l.started))
  }

  // ----- facts about flows and chains

  lemma {:induction false} FlowAppend(receiving: Option<Transfer>, segs: seq<XferSegment>, x: XferSegment)
    ensures var f := Flow(receiving, segs); var r := Receive(f.receiving, x);
            Flow(receiving, segs + [x])
            == Future(r.receiving, f.passedUp + r.passedUp, f.acks + Opt(r.ack))
    decreases |segs|
  {
    hide Receive;
    if segs == [] {
      assert [x][1..] == [] && segs + [x] == [x];
      var r := Receive(receiving, x);
      assert Flow(receiving, [x]) == Future(r.receiving, r.passedUp + [], Opt(r.ack) + []);
    } else {
      var r := Receive(receiving, segs[0]);
      FlowAppend(r.receiving, segs[1..], x);
      assert (segs + [x])[1..] == segs[1..] + [x];
      var f := Flow(r.receiving, segs[1..]);
      var r' := Receive(f.receiving, x);
      assert r.passedUp + (f.passedUp + r'.passedUp) == (r.passedUp + f.passedUp) + r'.passedUp;
      assert Opt(r.ack) + (f.acks + Opt(r'.ack)) == (Opt(r.ack) + f.acks) + Opt(r'.ack);
    }
  }

  lemma {:induction false} ChainAppend(lo: int, acks: seq<XferAck>, a: XferAck, hi: int, hi': int)
    requires Chain(lo, acks, a.id, hi) && hi <= hi' && ChainEnd(lo, acks) < a.length <= hi'
    ensures Chain(lo, acks + [a], a.id, hi')
    decreases |acks|
  {
    if acks != [] {
      assert (acks + [a])[1..] == acks[1..] + [a];
      ChainAppend(acks[0].length, acks[1..], a, hi, hi');
    } else {
      assert acks + [a] == [a];
    }
  }

  lemma {:induction false} ChainSplit(lo: int, xs: seq<XferAck>, ys: seq<XferAck>, id: u64, hi: int)
    requires Chain(lo, xs + ys, id, hi)
    ensures Chain(lo, xs, id, hi) && Chain(ChainEnd(lo, xs), ys, id, hi)
    decreases |xs|
  {
    if xs == [] {
      assert xs + ys == ys;
    } else {
      assert (xs + ys)[1..] == xs[1..] + ys;
      ChainSplit(xs[0].length, xs[1..], ys, id, hi);
    }
  }

  lemma {:induction false} ChainWiden(lo: int, acks: seq<XferAck>, id: u64, hi: int, hi': int)
    requires Chain(lo, acks, id, hi) && hi <= hi'
    ensures Chain(lo, acks, id, hi')
    decreases |acks|
  {
    if acks != [] {
      ChainWiden(acks[0].length, acks[1..], id, hi, hi');
    }
  }

  /** Nothing follows an acknowledgement that already reaches the bound. */
  lemma {:induction false} ChainStopsAt(lo: int, xs: seq<XferAck>, ys: seq<XferAck>, id: u64, hi: int, i: nat)
    requires Chain(lo, xs + ys, id, hi) && i < |xs| && xs[i].length == hi
    ensures i == |xs| - 1 && ys == []
    decreases |xs|
  {
    assert (xs + ys)[1..] == xs[1..] + ys;
    if i == 0 {
      assert xs[1..] + ys == [];
    } else {
      ChainStopsAt(xs[0].length, xs[1..], ys, id, hi, i - 1);
    }
  }

  // ----- the transitions keep the invariant

  function AfterSegment(l: Link, mru: u64): Link
    requires l.tracker.Some? && l.tracker.value.pos <= |l.tracker.value.transfer.data|
  {
    var tt := l.tracker.value;
    l.(tracker := Some(tt.(pos := SegmentEnd(tt, mru))), segs := l.segs + [NextSegment(tt, mru)])
  }

  /** The next segment continues exactly where the receiver will stand, and is acknowledged with the new position. */
  lemma NextSegmentArrives(f: Future, delivered: seq<Transfer>, tt: TransferTracker, started: seq<bytes>, mru: u64)
    requires IsCurrent(tt, started) && Arrived(f, delivered, tt, started)
    requires mru >= 1 && tt.pos < |tt.transfer.data|
    ensures var tt' := tt.(pos := SegmentEnd(tt, mru));
            var r := Receive(f.receiving, NextSegment(tt, mru));
            && r.ack.Some? && r.ack.value.id == tt.transfer.id && r.ack.value.length == tt'.pos
            && Arrived(Future(r.receiving, f.passedUp + r.passedUp, f.acks + Opt(r.ack)), delivered, tt', started)
  {
    var data, end, k := tt.transfer.data, SegmentEnd(tt, mru), |started| - 1;
    var x := NextSegment(tt, mru);
    var sofar := if f.receiving.Some? then f.receiving.value.data else [];
    assert sofar == data[..tt.pos];
    assert data[..tt.pos] + data[tt.pos..end] == data[..end];
    var r := Receive(f.receiving, x);
    assert r.ack.value.length == end;
    assert delivered + (f.passedUp + r.passedUp) == (delivered + f.passedUp) + r.passedUp;
    if end == |data| {
      assert data[..end] == data;
      assert Whole(started) == Whole(started[..k]) + [tt.transfer];
    } else {
      assert Whole(started[..k]) + [] == Whole(started[..k]);
    }
  }

  lemma SegmentKeepsInv(l: Link, mru: u64)
    requires Inv(l) && l.tracker.Some? && mru >= 1
    requires l.tracker.value.pos < |l.tracker.value.transfer.data|
    ensures Inv(AfterSegment(l, mru))
  {
    hide Receive, Whole, NextSegment, Arrived, Chain, Flow, FullyAcked;
    var tt, l' := l.tracker.value, AfterSegment(l, mru);
    var f, x := Flow(l.receiving, l.segs), NextSegment(tt, mru);
    FlowAppend(l.receiving, l.segs, x);
    assert FullyAcked(l', |tt.transfer.data|) == FullyAcked(l, |tt.transfer.data|) by {
      SameFullyAcked(l, l', |tt.transfer.data|);
    }
    if FullyAcked(l, |tt.transfer.data|) {
      AckedMeansSent(l);
    }
    if l.rcvLive {
      NextSegmentArrives(f, l.delivered, tt, l.started, mru);
      var r := Receive(f.receiving, x);
      var base := l.acks + Opt(l.pending);
      ChainAppend(tt.posAcked, base + f.acks, r.ack.value, tt.pos, SegmentEnd(tt, mru));
      assert base + f.acks + [r.ack.value] == base + (f.acks + Opt(r.ack));
    } else {
      ChainWiden(tt.posAcked, Outstanding(l), tt.transfer.id, tt.pos, SegmentEnd(tt, mru));
    }
  }

  lemma SameFullyAcked(l: Link, l': Link, n: nat)
    requires l.acks == l'.acks && l.pending == l'.pending
    ensures FullyAcked(l, n) == FullyAcked(l', n)
  {
  }

  /** A full acknowledgement means that the sender has sent everything. */
  lemma AckedMeansSent(l: Link)
    requires l.tracker.Some? && IsCurrent(l.tracker.value, l.started) && TrackerInv(l)
    requires FullyAcked(l, |l.tracker.value.transfer.data|)
    ensures l.tracker.value.pos == |l.tracker.value.transfer.data|
  {
    hide Flow, Arrived;
    var tt := l.tracker.value;
    var base := l.acks + Opt(l.pending);
    var i :| 0 <= i < |base| && base[i].length == |tt.transfer.data|;
    var rest := if l.rcvLive then Flow(l.receiving, l.segs).acks else [];
    ChainSplit(tt.posAcked, base, rest, tt.transfer.id, tt.pos);
    ChainBound(tt.posAcked, base, tt.transfer.id, tt.pos, i);
  }

  lemma {:induction false} ChainBound(lo: int, acks: seq<XferAck>, id: u64, hi: int, i: nat)
    requires Chain(lo, acks, id, hi) && i < |acks|
    ensures acks[i].id == id && lo < acks[i].length <= hi
    decreases |acks|
  {
    if i > 0 {
      ChainBound(acks[0].length, acks[1..], id, hi, i - 1);
    }
  }

  /** A new transfer starts only when the link is idle. */
  lemma StartKeepsInv(l: Link, data: bytes)
    requires Inv(l) && l.sndLive && l.tracker.None? && |data| < 0x8000_0000_0000_0000
    ensures var tt := TransferTracker(Transfer(AsU64(|l.started|), data), 0, 0);
            Inv(l.(tracker := Some(tt), started := l.started + [data]))
  {
    var tt := TransferTracker(Transfer(AsU64(|l.started|), data), 0, 0);
    var l' := l.(tracker := Some(tt), started := l.started + [data]);
    assert l'.started[..|l.started|] == l.started;
    assert Whole(l.started) <= Whole(l'.started);
    assert Outstanding(l') == [];
    assert l.delivered + [] == l.delivered;
  }

  /** The sender reads an acknowledgement: it names the current transfer and stays within what was sent; and if it
      covers the whole transfer, the receiver has passed the transfer up and the link is idle again. */
  lemma AckKeepsInv(l: Link)
    requires Inv(l) && l.tracker.Some? && l.acks != []
    ensures var tt, a := l.tracker.value, l.acks[0];
            && a.id == tt.transfer.id && tt.posAcked < a.length <= tt.pos
            && Inv(l.(acks := l.acks[1..],
                      tracker := if a.length == |tt.transfer.data| then None else Some(tt.(posAcked := a.length))))
  {
    hide Flow, Arrived, Whole;
    var tt, a := l.tracker.value, l.acks[0];
    var l1 := l.(acks := l.acks[1..]);
    var rest := Outstanding(l1);
    assert Outstanding(l) == [a] + rest by {
      assert l.acks == [a] + l1.acks;
    }
    assert ([a] + rest)[1..] == rest;
    assert (l.acks + Opt(l.pending))[0] == a;
    if a.length == |tt.transfer.data| {
      assert FullyAcked(l, |tt.transfer.data|);
      ChainStopsAt(tt.posAcked, [a], rest, tt.transfer.id, tt.pos, 0);
      assert l1.acks == [] && l.pending == None;
      if l.rcvLive {
        FlowNothing(l.receiving);
        CompleteArrival(l.delivered, l.receiving, tt, l.started);
      }
    } else {
      var l' := l1.(tracker := Some(tt.(posAcked := a.length)));
      assert Outstanding(l') == rest;
      if FullyAcked(l', |tt.transfer.data|) {
        FullyAckedLater(l, |tt.transfer.data|);
      }
      if l.rcvLive {
        ArrivedFrame(Flow(l.receiving, l.segs), l.delivered, tt, a.length, l.started);
      }
    }
  }

  lemma FlowNothing(receiving: Option<Transfer>)
    ensures Flow(receiving, []) == Future(receiving, [], [])
  {
  }

  lemma CompleteArrival(delivered: seq<Transfer>, receiving: Option<Transfer>, tt: TransferTracker, started: seq<bytes>)
    requires IsCurrent(tt, started) && 0 < tt.pos == |tt.transfer.data|
    requires Arrived(Future(receiving, [], []), delivered, tt, started)
    ensures receiving == None && delivered == Whole(started)
  {
    assert delivered + [] == delivered;
  }

  lemma FullyAckedLater(l: Link, n: nat)
    requires l.acks != [] && FullyAcked(l.(acks := l.acks[1..]), n)
    ensures FullyAcked(l, n)
  {
    var later := l.acks[1..] + Opt(l.pending);
    var i :| 0 <= i < |later| && later[i].length == n;
    assert (l.acks + Opt(l.pending))[i + 1] == later[i];
  }

  lemma ArrivedFrame(f: Future, delivered: seq<Transfer>, tt: TransferTracker, acked: nat, started: seq<bytes>)
    requires IsCurrent(tt, started) && Arrived(f, delivered, tt, started)
    ensures Arrived(f, delivered, tt.(posAcked := acked), started)
  {
  }

  /** The receiver reads the next segment. */
  lemma ReceiveKeepsInv(l: Link)
    requires Inv(l) && l.rcvLive && l.pending.None? && l.segs != []
    ensures var r := Receive(l.receiving, l.segs[0]);
            Inv(l.(segs := l.segs[1..], receiving := r.receiving, delivered := l.delivered + r.passedUp,
                   pending := r.ack))
  {
    hide Receive, Whole, Arrived;
    var r := Receive(l.receiving, l.segs[0]);
    var l' := l.(segs := l.segs[1..], receiving := r.receiving, delivered := l.delivered + r.passedUp,
                 pending := r.ack);
    var f, f' := Flow(l.receiving, l.segs), Flow(r.receiving, l'.segs);
    assert l'.delivered + f'.passedUp == l.delivered + f.passedUp;
    if l.tracker.Some? {
      assert |f'.acks| <= |l'.segs| by { FlowAcks(r.receiving, l'.segs); }
      assert Outstanding(l') == Outstanding(l);
      var tt := l.tracker.value;
      SameArrival(f, l.delivered, f', l'.delivered, tt, l.started);
      ArrivedPrefix(f', l'.delivered, tt, l.started);
      ReceivedFull(l, l');
    } else {
      assert l'.delivered <= l'.delivered + f'.passedUp;
    }
  }

  lemma {:induction false} FlowAcks(receiving: Option<Transfer>, segs: seq<XferSegment>)
    ensures |Flow(receiving, segs).acks| <= |segs|
    decreases |segs|
  {
    hide Receive;
    if segs != [] {
      FlowAcks(Receive(receiving, segs[0]).receiving, segs[1..]);
    }
  }

  lemma SameArrival(f: Future, delivered: seq<Transfer>, f': Future, delivered': seq<Transfer>, tt: TransferTracker,
                    started: seq<bytes>)
    requires IsCurrent(tt, started) && Arrived(f, delivered, tt, started)
    requires f'.receiving == f.receiving && delivered' + f'.passedUp == delivered + f.passedUp
    ensures Arrived(f', delivered', tt, started)
  {
  }

  lemma ArrivedPrefix(f: Future, delivered: seq<Transfer>, tt: TransferTracker, started: seq<bytes>)
    requires IsCurrent(tt, started) && Arrived(f, delivered, tt, started)
    ensures delivered <= Whole(started)
  {
    assert delivered <= delivered + f.passedUp;
    assert Whole(started[..|started| - 1]) <= Whole(started);
  }

  /** A full acknowledgement queued by this very segment: it was the last one, and the transfer has arrived. */
  lemma ReceivedFull(l: Link, l': Link)
    requires l.tracker.Some? && l'.tracker == l.tracker && l'.started == l.started && l'.acks == l.acks
    requires IsCurrent(l.tracker.value, l.started) && TrackerInv(l) && l.segs != []
    requires l'.rcvLive && Outstanding(l') == Outstanding(l) && |Flow(l'.receiving, l'.segs).acks| == |l'.segs|
    requires Arrived(Flow(l'.receiving, l'.segs), l'.delivered, l.tracker.value, l.started)
    ensures FullyAcked(l', |l.tracker.value.transfer.data|) ==> l'.segs == [] && l'.delivered == Whole(l.started)
  {
    hide Arrived, Whole, Receive;
    var tt := l.tracker.value;
    var base := l'.acks + Opt(l'.pending);
    if FullyAcked(l', |tt.transfer.data|) {
      var i :| 0 <= i < |base| && base[i].length == |tt.transfer.data|;
      var rest := Flow(l'.receiving, l'.segs).acks;
      ChainSplit(tt.posAcked, base, rest, tt.transfer.id, tt.pos);
      ChainBound(tt.posAcked, base, tt.transfer.id, tt.pos, i);
      ChainStopsAt(tt.posAcked, base, rest, tt.transfer.id, tt.pos, i);
      assert l'.segs == [];
      CompleteArrival(l'.delivered, l'.receiving, tt, l.started);
    }
  }

  /** The receiver writes its queued acknowledgement. */
  lemma AckSentKeepsInv(l: Link)
    requires Inv(l) && l.pending.Some?
    ensures Inv(l.(pending := None, acks := l.acks + [l.pending.value]))
  {
    hide Flow, Arrived, Whole, Chain;
    var l' := l.(pending := None, acks := l.acks + [l.pending.value]);
    assert l'.acks + Opt(l'.pending) == l.acks + Opt(l.pending);
    assert Outstanding(l') == Outstanding(l);
  }

  /** Either side may start to close, and from then on drops what it reads. */
  lemma SenderStopKeepsInv(l: Link)
    requires Inv(l)
    ensures Inv(l.(sndLive := false, tracker := None))
  {
    hide Whole, Receive, Chain;
    if l.rcvLive && l.sndLive {
      if l.tracker.Some? {
        var tt := l.tracker.value;
        var f := Flow(l.receiving, l.segs);
        SameArrival(f, l.delivered, Future(f.receiving, [], f.acks), l.delivered + f.passedUp, tt, l.started);
        ArrivedPrefix(Future(f.receiving, [], f.acks), l.delivered + f.passedUp, tt, l.started);
      } else {
        assert l.delivered + [] == l.delivered;
      }
    }
  }

  lemma SenderDropsAck(l: Link)
    requires Inv(l) && !l.sndLive && l.acks != []
    ensures Inv(l.(acks := l.acks[1..]))
  {
  }

  lemma ReceiverStopKeepsInv(l: Link)
    requires Inv(l) && l.pending.None?
    ensures Inv(l.(rcvLive := false))
  {
    hide Whole, Receive, Arrived;
    var l' := l.(rcvLive := false);
    if l.rcvLive && l.tracker.Some? {
      var tt := l.tracker.value;
      ChainSplit(tt.posAcked, l.acks + Opt(l.pending), Flow(l.receiving, l.segs).acks, tt.transfer.id, tt.pos);
      assert Outstanding(l') == l.acks + Opt(l.pending);
      SameFullyAcked(l, l', |tt.transfer.data|);
    }
  }

  lemma ReceiverDropsSegment(l: Link)
    requires Inv(l) && !l.rcvLive && l.segs != []
    ensures Inv(l.(segs := l.segs[1..]))
  {
    hide Whole, Receive, Arrived, Flow, Chain;
    var l' := l.(segs := l.segs[1..]);
    assert Outstanding(l') == Outstanding(l);
    if l.tracker.Some? {
      SameFullyAcked(l, l', |l.tracker.value.transfer.data|);
    }
  }
}
