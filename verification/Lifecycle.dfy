/** A bundle on its way through both agents: what the storage announces the protocol agent decides on, what the protocol
    agent decides the storage records, and in the end the bundle waits for its client or for its next node, is put
    together with its other fragments, or is dropped. */
module Lifecycle {
  import opened Bytes
  import opened Bundle
  import opened Storage
  import opened StoredForwarding
  import opened ProtocolAgent
  import opened AgentConservation
  import opened StoreEffects

  datatype Node = Node(store: StoreState, agent: Agent)

  /** Is the destination on this node? */
  predicate IsLocal(me: Endpoint, destination: Endpoint) {
    NodeOf(me) == NodeOf(destination)
  }

  /** What the protocol agent makes of an announced bundle with these bytes; `None` is a panic. */
  function HandleNotice(n: Node, me: Endpoint, checks: bool, r: Ref, data: bytes, answers: seq<Answer>): Option<Node> {
    match r.state
    case Received => Updating(n, r, Valid, None)
    case Valid =>
      if IsLocal(me, r.primary.destination) then
        Updating(n, r, if r.primary.fragmentOffset.Some? then DefragmentationPending else DeliveryQueued, None)
      else (match ForwardData(data, me, checks)
            case NewData(data') => Updating(n, r, ForwardingQueued, Some(data'))
            case LimitExceeded => Updating(n, r, Invalid, None)
            case DataPanics => None)
    case _ =>
      (match HandleEvent(n.agent, Updated(r, answers))
       case None => None
       case Some(a) => Some(n.(agent := a)))
  }

  function Updating(n: Node, r: Ref, state: State, data: Option<bytes>): Option<Node> {
    match Update(n.store, r.primary, state, data)
    case None => None
    case Some(s) => Some(n.(store := s))
  }

  /** The only stored bundle with its primary block. */
  predicate OnlyAt(bs: seq<StoredBundle>, i: nat) {
    i < |bs| && forall k :: 0 <= k < |bs| && k != i ==> bs[k].primary != bs[i].primary
  }

  lemma OnlyIsFirst(bs: seq<StoredBundle>, i: nat)
    requires OnlyAt(bs, i)
    ensures FirstAt(bs, bs[i].primary, i)
  {
  }

  lemma StillOnly(bs: seq<StoredBundle>, bs': seq<StoredBundle>, i: nat, sb: StoredBundle)
    requires OnlyAt(bs, i) && Exchanged(bs, bs', i, [sb]) && sb.primary == bs[i].primary
    ensures OnlyAt(bs', |bs| - 1) && bs'[|bs| - 1] == sb
  {
    assert [sb][0] == sb && bs'[|bs| - 1 + 0] == [sb][0];
    forall k | 0 <= k < |bs'| && k != |bs| - 1
      ensures bs'[k].primary != sb.primary
    {
      if k >= i {
        assert bs'[k] == bs[k + 1];
      }
    }
  }

  /** The bundles but that at i are those but that at j, in order. */
  predicate OthersSame(bs: seq<StoredBundle>, i: nat, bs': seq<StoredBundle>, j: nat)
    requires i < |bs| && j < |bs'|
  {
    bs[..i] + bs[i + 1..] == bs'[..j] + bs'[j + 1..]
  }

  lemma ExchangedOthers(bs: seq<StoredBundle>, bs': seq<StoredBundle>, i: nat, sb: StoredBundle)
    requires i < |bs| && Exchanged(bs, bs', i, [sb])
    ensures |bs'| == |bs| && OthersSame(bs, i, bs', |bs| - 1)
  {
    var x, y := bs[..i] + bs[i + 1..], bs'[..|bs| - 1] + bs'[|bs|..];
    forall k | 0 <= k < |x|
      ensures x[k] == y[k]
    {
      if k >= i {
        assert x[k] == bs[k + 1] == bs'[k];
      }
    }
  }

  /** One update: the bundle is last, with the new state and data, the rest is as it was, and it has been announced. */
  predicate Advanced(s: StoreState, i: nat, s': StoreState, state: State, data: bytes)
    requires i < |s.bundles|
  {
    var j, sb := |s.bundles| - 1, s.bundles[i];
    && |s'.bundles| == |s.bundles| && OnlyAt(s'.bundles, j) && OthersSame(s.bundles, i, s'.bundles, j)
    && s'.bundles[j] == sb.(state := state, data := data)
    && s'.notified == s.notified + [Ref(state, sb.size, sb.payloadSize, sb.minSize, sb.primary)]
  }

  lemma UpdateAdvances(n: Node, i: nat, r: Ref, state: State, data: Option<bytes>)
    requires OnlyAt(n.store.bundles, i) && r.primary == n.store.bundles[i].primary
    requires state.Valid? || state.DeliveryQueued? || state.ForwardingQueued?
    ensures var o := Updating(n, r, state, data);
            && o.Some? && o.value.agent == n.agent
            && Advanced(n.store, i, o.value.store, state, if data.Some? then data.value else n.store.bundles[i].data)
  {
    hide Update, OnlyAt, Exchanged, OthersSame;
    OnlyIsFirst(n.store.bundles, i);
    UpdateMovesOn(n.store, r.primary, i, state, data);
    var sb := n.store.bundles[i];
    var sb' := sb.(state := state, data := if data.Some? then data.value else sb.data);
    StillOnly(n.store.bundles, Update(n.store, r.primary, state, data).value.bundles, i, sb');
    ExchangedOthers(n.store.bundles, Update(n.store, r.primary, state, data).value.bundles, i, sb');
  }

  // ----- what the protocol agent is left with

  /** In a queue for this destination, sent and not answered yet, or to be cut. */
  predicate Waits(lane: Lane, k: Endpoint, r: Ref) {
    r in Entry(lane.queues, k) || r in Entry(lane.pending, k) || r in Refs(lane.requests)
  }

  lemma AppliedHolds(lane: Lane, k: Endpoint, d: Delivery, queue: seq<Ref>, r: Ref)
    requires k in lane.queues && lane.queues[k] == queue && r in queue
    requires Count(queue, r) == Count(d.queue, r) + Count(d.sent, r) + Count(Refs(d.requests), r)
    ensures Waits(Applied(lane, k, d), k, r)
  {
    hide Count;
    CountHas(queue, r);
    CountHas(d.queue, r);
    CountHas(d.sent, r);
    CountHas(Refs(d.requests), r);
    RefsConcat(lane.requests, d.requests);
  }

  /** Whatever the channels answer, a bundle to be forwarded waits under the node of its destination. */
  lemma ForwardingWaits(a: Agent, r: Ref, answers: seq<Answer>)
    requires r.state.ForwardingQueued?
    ensures var o := HandleEvent(a, Updated(r, answers));
            o.Some? && Waits(o.value.remote, NodeOf(r.primary.destination), r) && o.value.local == a.local
  {
    hide Loop, NodeOf, Count, Waits, Refs, Applied;
    var d := NodeOf(r.primary.destination);
    var queue := Entry(a.remote.queues, d) + [r];
    var a1 := a.(remote := PushBack(a.remote, d, r));
    assert queue[|queue| - 1] == r;
    if Reachable(a1, d) {
      var maxSize := SmallerSize(a.routes[d].maxSize, a.routes[a.routes[d].nextHop].maxSize);
      LoopConserves(queue, {}, maxSize, answers, r, r.primary);
      AppliedHolds(a1.remote, d, Loop(queue, {}, maxSize, answers), queue, r);
    } else {
      QueuedWaits(a1.remote, d, r);
    }
  }

  lemma QueuedWaits(lane: Lane, k: Endpoint, r: Ref)
    requires r in Entry(lane.queues, k)
    ensures Waits(lane, k, r)
  {
  }

  lemma {:induction false} ClientLoopConserves(queue: seq<Ref>, answers: seq<Answer>, r: Ref)
    requires ClientLoop(queue, answers).Some?
    ensures var d := ClientLoop(queue, answers).value;
            Count(queue, r) == Count(d.queue, r) + Count(d.sent, r) + Count(Refs(d.requests), r)
    decreases |queue|
  {
    if queue == [] {
      CountNone(r, r.primary);
    } else {
      var b, rest := queue[0], queue[1..];
      assert queue == [b] + rest;
      if NextAnswer(answers).Taken? {
        ClientLoopConserves(rest, LaterAnswers(answers), r);
        CountConcat([b], ClientLoop(rest, LaterAnswers(answers)).value.sent, r, r.primary);
      } else {
        CountConcat(rest, [b], r, r.primary);
        CountNone(r, r.primary);
      }
      CountConcat([b], rest, r, r.primary);
    }
  }

  /** Whatever the channels answer, a bundle for a client waits under its destination. */
  lemma DeliveryWaits(a: Agent, r: Ref, answers: seq<Answer>)
    requires r.state.DeliveryQueued? && HandleEvent(a, Updated(r, answers)).Some?
    ensures var a' := HandleEvent(a, Updated(r, answers)).value;
            Waits(a'.local, r.primary.destination, r) && a'.remote == a.remote
  {
    hide ClientLoop, Count, Waits, Refs, Applied;
    var e := r.primary.destination;
    var queue := Entry(a.local.queues, e) + [r];
    var a1 := a.(local := PushBack(a.local, e, r));
    assert queue[|queue| - 1] == r;
    if e in a.clients {
      ClientLoopConserves(queue, answers, r);
      AppliedHolds(a1.local, e, ClientLoop(queue, answers).value, queue, r);
    } else {
      QueuedWaits(a1.local, e, r);
    }
  }

  // ----- the way of a bundle

  /** The bundle at i as the protocol agent is told of it, in this state. */
  function NoticeAt(s: StoreState, i: nat, state: State): Ref
    requires i < |s.bundles|
  {
    Ref(state, s.bundles[i].size, s.bundles[i].payloadSize, s.bundles[i].minSize, s.bundles[i].primary)
  }

  /** A received bundle becomes valid. */
  lemma ReceivedBecomesValid(n: Node, me: Endpoint, checks: bool, i: nat, answers: seq<Answer>)
    requires OnlyAt(n.store.bundles, i)
    ensures var data := n.store.bundles[i].data;
            var o := HandleNotice(n, me, checks, NoticeAt(n.store, i, Received), data, answers);
            o.Some? && o.value.agent == n.agent && Advanced(n.store, i, o.value.store, Valid, data)
  {
    hide Updating, Advanced, HandleEvent, ForwardData;
    UpdateAdvances(n, i, NoticeAt(n.store, i, Received), Valid, None);
  }

  /** A valid whole bundle for this node: two notices later it waits for its client, and the storage has it unchanged. */
  lemma LocalBundleWaits(n: Node, me: Endpoint, checks: bool, i: nat, answers: seq<Answer>)
    requires OnlyAt(n.store.bundles, i) && IsLocal(me, n.store.bundles[i].primary.destination)
    requires n.store.bundles[i].primary.fragmentOffset.None?
    ensures var sb, r := n.store.bundles[i], NoticeAt(n.store, i, DeliveryQueued);
            var o := HandleNotice(n, me, checks, NoticeAt(n.store, i, Valid), sb.data, answers);
            && o.Some? && o.value.agent == n.agent && Advanced(n.store, i, o.value.store, DeliveryQueued, sb.data)
            && var o2 := HandleNotice(o.value, me, checks, r, sb.data, answers);
            o2.Some? ==> o2.value.store == o.value.store && Waits(o2.value.agent.local, sb.primary.destination, r)
                         && o2.value.agent.remote == n.agent.remote
  {
    hide Updating, Advanced, HandleEvent, ForwardData, Waits, NodeOf;
    UpdateAdvances(n, i, NoticeAt(n.store, i, Valid), DeliveryQueued, None);
    var r := NoticeAt(n.store, i, DeliveryQueued);
    if HandleEvent(n.agent, Updated(r, answers)).Some? {
      DeliveryWaits(n.agent, r, answers);
    }
  }

  /** A valid bundle for another node that may hop on: the storage has the forwarded form of its bytes, and two notices
      later it waits under the node of its destination, whatever the channels answer. */
  lemma ForeignBundleWaits(n: Node, me: Endpoint, checks: bool, i: nat, answers: seq<Answer>)
    requires OnlyAt(n.store.bundles, i) && !IsLocal(me, n.store.bundles[i].primary.destination)
    requires ForwardData(n.store.bundles[i].data, me, checks).NewData?
    ensures var sb, r := n.store.bundles[i], NoticeAt(n.store, i, ForwardingQueued);
            var data := ForwardData(sb.data, me, checks).data;
            var o := HandleNotice(n, me, checks, NoticeAt(n.store, i, Valid), sb.data, answers);
            && o.Some? && o.value.agent == n.agent && Advanced(n.store, i, o.value.store, ForwardingQueued, data)
            && var o2 := HandleNotice(o.value, me, checks, r, data, answers);
            && o2.Some? && o2.value.store == o.value.store
            && Waits(o2.value.agent.remote, NodeOf(sb.primary.destination), r) && o2.value.agent.local == n.agent.local
  {
    hide Updating, Advanced, HandleEvent, ForwardData, Waits, NodeOf;
    var data := ForwardData(n.store.bundles[i].data, me, checks).data;
    UpdateAdvances(n, i, NoticeAt(n.store, i, Valid), ForwardingQueued, Some(data));
    ForwardingWaits(n.agent, NoticeAt(n.store, i, ForwardingQueued), answers);
  }

  /** A valid bundle for another node that has used up its hops: it is dropped, and nothing else changes. */
  lemma ExhaustedBundleIsDropped(n: Node, me: Endpoint, checks: bool, i: nat, answers: seq<Answer>)
    requires OnlyAt(n.store.bundles, i) && !IsLocal(me, n.store.bundles[i].primary.destination)
    requires ForwardData(n.store.bundles[i].data, me, checks).LimitExceeded?
    ensures var sb := n.store.bundles[i];
            var o := HandleNotice(n, me, checks, NoticeAt(n.store, i, Valid), sb.data, answers);
            && o.Some? && o.value.agent == n.agent && o.value.store.notified == n.store.notified
            && Exchanged(n.store.bundles, o.value.store.bundles, i, [])
  {
    hide OnlyAt, HandleEvent, ForwardData, Exchanged, Update, NodeOf;
    OnlyIsFirst(n.store.bundles, i);
    UpdateRemoves(n.store, n.store.bundles[i].primary, i, Invalid, None);
  }

  /** A valid fragment for this node is handed to defragmentation. */
  lemma LocalFragmentIsJoined(n: Node, me: Endpoint, checks: bool, i: nat, answers: seq<Answer>)
    requires OnlyAt(n.store.bundles, i) && IsLocal(me, n.store.bundles[i].primary.destination)
    requires n.store.bundles[i].primary.fragmentOffset.Some?
    ensures var sb := n.store.bundles[i];
            var o, s' := HandleNotice(n, me, checks, NoticeAt(n.store, i, Valid), sb.data, answers),
                         Update(n.store, sb.primary, DefragmentationPending, None);
            (o.None? <==> s'.None?) && (o.Some? ==> o.value == Node(s'.value, n.agent))
  {
    hide OnlyAt, HandleEvent, ForwardData, Update, NodeOf;
  }

  /** Once its client or the next node has a bundle, the storage lets it go. */
  lemma FinishedBundleIsRemoved(n: Node, i: nat, forwarded: bool)
    requires OnlyAt(n.store.bundles, i)
    ensures var o := Updating(n, NoticeAt(n.store, i, ForwardingQueued), if forwarded then ForwardDone else Delivered, None);
            && o.Some? && o.value.agent == n.agent && o.value.store.notified == n.store.notified
            && Exchanged(n.store.bundles, o.value.store.bundles, i, [])
  {
    hide OnlyAt, Exchanged, Update;
    OnlyIsFirst(n.store.bundles, i);
    UpdateRemoves(n.store, n.store.bundles[i].primary, i, if forwarded then ForwardDone else Delivered, None);
  }
}
