/** No bundle is lost or duplicated by the protocol agent, over every run of events. */
module AgentConservation {
  import opened Bytes
  import opened Bundle
  import opened Storage
  import opened ProtocolAgent

  /** Under which destination a lane keeps a bundle. */
  function KeyOf(byNode: bool, r: Ref): Endpoint {
    if byNode then NodeOf(r.primary.destination) else r.primary.destination
  }

  function Refs(requests: seq<FragmentBundle>): (rs: seq<Ref>)
    ensures |rs| == |requests| && forall i :: 0 <= i < |rs| ==> rs[i] == requests[i].bundle
  {
    seq(|requests|, i requires 0 <= i < |requests| => requests[i].bundle)
  }

  /** How often x is in s. */
  function Count(s: seq<Ref>, x: Ref): nat {
    if s == [] then 0 else (if s[0] == x then 1 else 0) + Count(s[1..], x)
  }

  /** How often the primary block p is in s. */
  function CountPrimary(s: seq<Ref>, p: PrimaryBlock): nat {
    if s == [] then 0 else (if s[0].primary == p then 1 else 0) + CountPrimary(s[1..], p)
  }

  /** How often r is queued, pending, requested to be fragmented, or finished. */
  function Places(lane: Lane, byNode: bool, r: Ref): nat {
    var k := KeyOf(byNode, r);
    Count(Entry(lane.queues, k), r) + Count(Entry(lane.pending, k), r) + Count(Refs(lane.requests), r)
    + Count(lane.finished, r)
  }

  /** How often p is queued or pending for destination k. */
  function LiveCount(lane: Lane, k: Endpoint, p: PrimaryBlock): nat {
    CountPrimary(Entry(lane.queues, k), p) + CountPrimary(Entry(lane.pending, k), p)
  }

  /** A bundle that may be kept for destination k; no fragment is kept for a client. */
  predicate Belongs(byNode: bool, k: Endpoint, r: Ref) {
    KeyOf(byNode, r) == k && (!byNode ==> r.primary.fragmentOffset.None?)
  }

  predicate KeyedAt(s: seq<Ref>, byNode: bool, k: Endpoint) {
    forall i :: 0 <= i < |s| ==> Belongs(byNode, k, s[i])
  }

  ghost predicate Keyed(lane: Lane, byNode: bool) {
    forall k :: KeyedAt(Entry(lane.queues, k), byNode, k) && KeyedAt(Entry(lane.pending, k), byNode, k)
  }

  /** No two live bundles share a primary block. */
  ghost predicate DistinctLive(lane: Lane) {
    forall k, p :: LiveCount(lane, k, p) <= 1
  }

  /** Every reference is in as many places as it was handed in. */
  ghost predicate Accounted(lane: Lane, byNode: bool, handed: seq<Ref>) {
    forall r :: Places(lane, byNode, r) == Count(handed, r)
  }

  ghost predicate LaneInv(lane: Lane, byNode: bool, handed: seq<Ref>) {
    Keyed(lane, byNode) && DistinctLive(lane) && Accounted(lane, byNode, handed)
  }

  // ----- lists

  lemma {:induction false} CountConcat(a: seq<Ref>, b: seq<Ref>, x: Ref, p: PrimaryBlock)
    ensures Count(a + b, x) == Count(a, x) + Count(b, x)
    ensures CountPrimary(a + b, p) == CountPrimary(a, p) + CountPrimary(b, p)
  {
    if a == [] {
      assert a + b == b;
    } else {
      assert (a + b)[1..] == a[1..] + b;
      CountConcat(a[1..], b, x, p);
    }
  }

  lemma CountOne(r: Ref, x: Ref, p: PrimaryBlock)
    ensures Count([r], x) == if r == x then 1 else 0
    ensures CountPrimary([r], p) == if r.primary == p then 1 else 0
  {
  }

  lemma RefsConcat(a: seq<FragmentBundle>, b: seq<FragmentBundle>)
    ensures Refs(a + b) == Refs(a) + Refs(b)
  {
  }

  lemma {:induction false} CountHas(s: seq<Ref>, r: Ref)
    ensures r in s <==> Count(s, r) >= 1
    ensures CountPrimary(s, r.primary) >= Count(s, r)
  {
    if s != [] {
      assert s == [s[0]] + s[1..];
      CountHas(s[1..], r);
    }
  }

  lemma {:induction false} RetainNothing(s: seq<Ref>, p: PrimaryBlock)
    requires CountPrimary(s, p) == 0
    ensures Retain(s, p) == s
  {
    if s != [] {
      RetainNothing(s[1..], p);
      assert s == [s[0]] + s[1..];
    }
  }

  /** Among distinct primary blocks, `retain` takes out exactly the one bundle. */
  lemma {:induction false} RetainOne(s: seq<Ref>, r: Ref, x: Ref, p: PrimaryBlock)
    requires r in s && CountPrimary(s, r.primary) <= 1
    ensures Count(Retain(s, r.primary), x) == Count(s, x) - if x == r then 1 else 0
    ensures CountPrimary(Retain(s, r.primary), p) == CountPrimary(s, p) - if p == r.primary then 1 else 0
  {
    if s[0] == r {
      RetainNothing(s[1..], r.primary);
      assert Retain(s, r.primary) == s[1..];
    } else {
      assert r in s[1..];
      CountHas(s[1..], r);
      RetainOne(s[1..], r, x, p);
      var t := Retain(s[1..], r.primary);
      assert Retain(s, r.primary) == [s[0]] + t && ([s[0]] + t)[1..] == t;
    }
  }

  lemma {:induction false} RetainKeyed(s: seq<Ref>, p: PrimaryBlock, byNode: bool, k: Endpoint)
    requires KeyedAt(s, byNode, k)
    ensures KeyedAt(Retain(s, p), byNode, k)
  {
    hide Belongs;
    if s != [] {
      RetainKeyed(s[1..], p, byNode, k);
    }
  }

  // ----- the loop

  /** Whatever the answers, the loop only moves bundles. */
  lemma {:induction false} LoopConserves(queue: seq<Ref>, visited: set<Id>, maxSize: Option<nat>, answers: seq<Answer>,
                                         x: Ref, p: PrimaryBlock)
    ensures var d := Loop(queue, visited, maxSize, answers);
            && Count(queue, x) == Count(d.queue, x) + Count(d.sent, x) + Count(Refs(d.requests), x)
            && CountPrimary(queue, p)
               == CountPrimary(d.queue, p) + CountPrimary(d.sent, p) + CountPrimary(Refs(d.requests), p)
    decreases Unvisited(queue, visited)
  {
    hide TooLarge, Unfragmentable, IdOf, Loop, Count, CountPrimary;
    if queue == [] || IdOf(queue[0]) in visited {
      LoopStops(queue, visited, maxSize, answers);
      CountNone(x, p);
    } else {
      var b, rest := queue[0], queue[1..];
      assert queue == [b] + rest;
      CountConcat([b], rest, x, p);
      CountConcat(rest, [b], x, p);
      CountNone(x, p);
      LoopStep(queue, visited, maxSize, answers);
      if TooLarge(b, maxSize) {
        if Unfragmentable(b, maxSize.value) {
          RotationIsProgress(queue, visited);
          LoopConserves(rest + [b], visited + {IdOf(b)}, maxSize, answers, x, p);
        } else {
          LoopConserves(rest, visited, maxSize, answers, x, p);
          var d := Loop(rest, visited, maxSize, answers);
          RefsConcat([FragmentBundle(b, maxSize.value)], d.requests);
          assert Refs([FragmentBundle(b, maxSize.value)]) == [b];
          CountConcat([b], Refs(d.requests), x, p);
        }
      } else if NextAnswer(answers).Taken? {
        LoopConserves(rest, visited, maxSize, LaterAnswers(answers), x, p);
        CountConcat([b], Loop(rest, visited, maxSize, LaterAnswers(answers)).sent, x, p);
      }
    }
  }

  lemma LoopStops(queue: seq<Ref>, visited: set<Id>, maxSize: Option<nat>, answers: seq<Answer>)
    requires queue == [] || IdOf(queue[0]) in visited
    ensures Loop(queue, visited, maxSize, answers) == Delivery(queue, [], [], Taken, answers)
  {
  }

  lemma CountNone(x: Ref, p: PrimaryBlock)
    ensures Count([], x) == 0 && CountPrimary([], p) == 0 && Refs([]) == []
  {
  }

  lemma CountedKeys(s: seq<Ref>, t: seq<Ref>, byNode: bool, k: Endpoint)
    requires KeyedAt(s, byNode, k) && forall x :: Count(t, x) <= Count(s, x)
    ensures KeyedAt(t, byNode, k)
  {
    hide Belongs, Count;
    forall i | 0 <= i < |t|
      ensures Belongs(byNode, k, t[i])
    {
      CountHas(t, t[i]);
      CountHas(s, t[i]);
      assert t[i] in s;
    }
  }

  lemma ForeignCount(s: seq<Ref>, byNode: bool, k: Endpoint, r: Ref)
    requires KeyedAt(s, byNode, k) && KeyOf(byNode, r) != k
    ensures Count(s, r) == 0
  {
    hide KeyOf, Count;
    CountHas(s, r);
  }

  // ----- one destination at a time

  /** The lane with other lists for destination k. */
  predicate ChangedAt(lane: Lane, lane': Lane, k: Endpoint, queue: seq<Ref>, pending: seq<Ref>,
                      requests: seq<FragmentBundle>, finished: seq<Ref>)
  {
    && Entry(lane'.queues, k) == queue && Entry(lane'.pending, k) == pending
    && lane'.requests == lane.requests + requests && lane'.finished == lane.finished + finished
    && lane'.queues.Keys + {k} == lane.queues.Keys + {k} && lane'.pending.Keys + {k} == lane.pending.Keys + {k}
    && (forall j :: j in lane.queues && j != k ==> lane'.queues[j] == lane.queues[j])
    && (forall j :: j in lane.pending && j != k ==> lane'.pending[j] == lane.pending[j])
  }

  lemma ElsewhereSame(lane: Lane, lane': Lane, k: Endpoint, queue: seq<Ref>, pending: seq<Ref>,
                      requests: seq<FragmentBundle>, finished: seq<Ref>, j: Endpoint)
    requires ChangedAt(lane, lane', k, queue, pending, requests, finished) && j != k
    ensures Entry(lane'.queues, j) == Entry(lane.queues, j) && Entry(lane'.pending, j) == Entry(lane.pending, j)
  {
    assert j in lane'.queues <==> j in lane.queues by {
      assert j in lane'.queues.Keys + {k} <==> j in lane.queues.Keys + {k};
    }
    assert j in lane'.pending <==> j in lane.pending by {
      assert j in lane'.pending.Keys + {k} <==> j in lane.pending.Keys + {k};
    }
  }

  lemma ChangeKeepsKeys(lane: Lane, lane': Lane, byNode: bool, k: Endpoint, queue: seq<Ref>, pending: seq<Ref>,
                        requests: seq<FragmentBundle>, finished: seq<Ref>)
    requires Keyed(lane, byNode) && DistinctLive(lane)
    requires ChangedAt(lane, lane', k, queue, pending, requests, finished)
    requires KeyedAt(queue, byNode, k) && KeyedAt(pending, byNode, k)
    requires forall p :: CountPrimary(queue, p) + CountPrimary(pending, p) <= 1
    ensures Keyed(lane', byNode) && DistinctLive(lane')
  {
    hide CountPrimary, KeyedAt, ChangedAt, Entry;
    ChangedHere(lane, lane', k, queue, pending, requests, finished);
    forall j
      ensures KeyedAt(Entry(lane'.queues, j), byNode, j) && KeyedAt(Entry(lane'.pending, j), byNode, j)
      ensures forall p :: LiveCount(lane', j, p) <= 1
    {
      if j != k {
        ElsewhereSame(lane, lane', k, queue, pending, requests, finished, j);
        assert forall p :: LiveCount(lane', j, p) == LiveCount(lane, j, p);
      }
    }
  }

  lemma ChangeKeepsPlaces(lane: Lane, lane': Lane, byNode: bool, handed: seq<Ref>, given: seq<Ref>, k: Endpoint,
                          queue: seq<Ref>, pending: seq<Ref>, requests: seq<FragmentBundle>, finished: seq<Ref>, r: Ref)
    requires Places(lane, byNode, r) == Count(handed, r)
    requires ChangedAt(lane, lane', k, queue, pending, requests, finished)
    requires KeyedAt(Refs(requests), byNode, k) && KeyedAt(finished, byNode, k) && KeyedAt(given, byNode, k)
    requires Count(queue, r) + Count(pending, r) + Count(Refs(requests), r) + Count(finished, r)
             == Count(Entry(lane.queues, k), r) + Count(Entry(lane.pending, k), r) + Count(given, r)
    ensures Places(lane', byNode, r) == Count(handed + given, r)
  {
    hide Count, CountPrimary, KeyOf, KeyedAt, ChangedAt, Entry, Refs;
    ChangedHere(lane, lane', k, queue, pending, requests, finished);
    CountConcat(handed, given, r, r.primary);
    RefsConcat(lane.requests, requests);
    CountConcat(Refs(lane.requests), Refs(requests), r, r.primary);
    CountConcat(lane.finished, finished, r, r.primary);
    if KeyOf(byNode, r) != k {
      ElsewhereSame(lane, lane', k, queue, pending, requests, finished, KeyOf(byNode, r));
      ForeignCount(Refs(requests), byNode, k, r);
      ForeignCount(finished, byNode, k, r);
      ForeignCount(given, byNode, k, r);
    }
  }

  /** If the four lists for destination k together hold what they held before and, perhaps, a bundle newly handed in,
      all is still accounted for. */
  lemma ChangeKeepsLane(lane: Lane, lane': Lane, byNode: bool, handed: seq<Ref>, given: seq<Ref>, k: Endpoint,
                        queue: seq<Ref>, pending: seq<Ref>, requests: seq<FragmentBundle>, finished: seq<Ref>)
    requires LaneInv(lane, byNode, handed) && ChangedAt(lane, lane', k, queue, pending, requests, finished)
    requires KeyedAt(queue, byNode, k) && KeyedAt(pending, byNode, k) && KeyedAt(Refs(requests), byNode, k)
    requires KeyedAt(finished, byNode, k) && KeyedAt(given, byNode, k)
    requires forall x :: Count(queue, x) + Count(pending, x) + Count(Refs(requests), x) + Count(finished, x)
                         == Count(Entry(lane.queues, k), x) + Count(Entry(lane.pending, k), x) + Count(given, x)
    requires forall p :: CountPrimary(queue, p) + CountPrimary(pending, p) <= 1
    ensures LaneInv(lane', byNode, handed + given)
  {
    hide Count, CountPrimary, KeyOf, KeyedAt, ChangedAt, Places, Keyed, DistinctLive;
    ChangeKeepsKeys(lane, lane', byNode, k, queue, pending, requests, finished);
    forall r
      ensures Places(lane', byNode, r) == Count(handed + given, r)
    {
      ChangeKeepsPlaces(lane, lane', byNode, handed, given, k, queue, pending, requests, finished, r);
    }
  }

  lemma ChangedHere(lane: Lane, lane': Lane, k: Endpoint, queue: seq<Ref>, pending: seq<Ref>,
                    requests: seq<FragmentBundle>, finished: seq<Ref>)
    requires ChangedAt(lane, lane', k, queue, pending, requests, finished)
    ensures Entry(lane'.queues, k) == queue && Entry(lane'.pending, k) == pending
    ensures lane'.requests == lane.requests + requests && lane'.finished == lane.finished + finished
  {
  }

  lemma LaneKeys(lane: Lane, byNode: bool, handed: seq<Ref>, k: Endpoint)
    requires LaneInv(lane, byNode, handed)
    ensures KeyedAt(Entry(lane.queues, k), byNode, k) && KeyedAt(Entry(lane.pending, k), byNode, k)
  {
    hide KeyedAt, Accounted, DistinctLive;
  }

  lemma LaneDistinct(lane: Lane, byNode: bool, handed: seq<Ref>, k: Endpoint, p: PrimaryBlock)
    requires LaneInv(lane, byNode, handed)
    ensures CountPrimary(Entry(lane.queues, k), p) + CountPrimary(Entry(lane.pending, k), p) <= 1
  {
    hide CountPrimary, Keyed, Accounted;
    assert LiveCount(lane, k, p) <= 1;
  }

  lemma KeyedConcat(a: seq<Ref>, b: seq<Ref>, byNode: bool, k: Endpoint)
    requires KeyedAt(a, byNode, k) && KeyedAt(b, byNode, k)
    ensures KeyedAt(a + b, byNode, k)
  {
    hide Belongs;
  }

  lemma NothingNew(handed: seq<Ref>)
    ensures handed + [] == handed
  {
  }

  // ----- the operations on a lane

  lemma LoopKeepsLane(lane: Lane, byNode: bool, handed: seq<Ref>, k: Endpoint, maxSize: Option<nat>,
                      answers: seq<Answer>)
    requires LaneInv(lane, byNode, handed)
    ensures LaneInv(Applied(lane, k, Loop(Entry(lane.queues, k), {}, maxSize, answers)), byNode, handed)
  {
    hide Count, CountPrimary, KeyOf, LaneInv, KeyedAt, Loop;
    if k in lane.queues {
      var q, pend := Entry(lane.queues, k), Entry(lane.pending, k);
      var d := Loop(q, {}, maxSize, answers);
      LaneKeys(lane, byNode, handed, k);
      forall x
        ensures Count(q, x) == Count(d.queue, x) + Count(d.sent, x) + Count(Refs(d.requests), x)
        ensures Count(pend + d.sent, x) == Count(pend, x) + Count(d.sent, x)
      {
        LoopConserves(q, {}, maxSize, answers, x, x.primary);
        CountConcat(pend, d.sent, x, x.primary);
      }
      forall p
        ensures CountPrimary(d.queue, p) + CountPrimary(pend + d.sent, p) <= 1
      {
        var x := Ref(Valid, 0, 0, None, p);
        LoopConserves(q, {}, maxSize, answers, x, p);
        CountConcat(pend, d.sent, x, p);
        LaneDistinct(lane, byNode, handed, k, p);
      }
      CountedKeys(q, d.queue, byNode, k);
      CountedKeys(q, d.sent, byNode, k);
      CountedKeys(q, Refs(d.requests), byNode, k);
      KeyedConcat(pend, d.sent, byNode, k);
      CountNothing();
      assert pend + [] == pend && lane.finished + [] == lane.finished;
      NothingNew(handed);
      ChangeKeepsLane(lane, Applied(lane, k, d), byNode, handed, [], k, d.queue, pend + d.sent, d.requests, []);
    }
  }

  lemma CountNothing()
    ensures forall x :: Count([], x) == 0
    ensures forall byNode, k :: KeyedAt([], byNode, k)
    ensures Refs([]) == []
  {
  }

  lemma KeyedOne(r: Ref, byNode: bool)
    requires Belongs(byNode, KeyOf(byNode, r), r)
    ensures KeyedAt([r], byNode, KeyOf(byNode, r))
  {
  }

  /** A bundle whose primary block is not live yet is handed in. */
  lemma PushKeepsLane(lane: Lane, byNode: bool, handed: seq<Ref>, r: Ref)
    requires LaneInv(lane, byNode, handed) && LiveCount(lane, KeyOf(byNode, r), r.primary) == 0
    requires Belongs(byNode, KeyOf(byNode, r), r)
    ensures LaneInv(PushBack(lane, KeyOf(byNode, r), r), byNode, handed + [r])
  {
    hide Count, CountPrimary, KeyOf, LaneInv, KeyedAt;
    var k := KeyOf(byNode, r);
    var q, pend := Entry(lane.queues, k), Entry(lane.pending, k);
    LaneKeys(lane, byNode, handed, k);
    KeyedOne(r, byNode);
    KeyedConcat(q, [r], byNode, k);
    CountNothing();
    forall x
      ensures Count(q + [r], x) == Count(q, x) + Count([r], x)
    {
      CountConcat(q, [r], x, x.primary);
    }
    forall p
      ensures CountPrimary(q + [r], p) + CountPrimary(pend, p) <= 1
    {
      CountConcat(q, [r], r, p);
      CountOne(r, r, p);
      LaneDistinct(lane, byNode, handed, k, p);
    }
    assert lane.finished + [] == lane.finished && lane.requests + [] == lane.requests;
    ChangeKeepsLane(lane, PushBack(lane, k, r), byNode, handed, [r], k, q + [r], pend, [], []);
  }

  lemma PendingKey(lane: Lane, byNode: bool, handed: seq<Ref>, k: Endpoint, r: Ref)
    requires LaneInv(lane, byNode, handed) && r in Entry(lane.pending, k)
    ensures KeyOf(byNode, r) == k && k in lane.pending && Belongs(byNode, k, r)
  {
    hide KeyOf, Accounted, DistinctLive;
    LaneKeys(lane, byNode, handed, k);
    assert KeyedAt(Entry(lane.pending, k), byNode, k);
  }

  lemma DismissCounts(lane: Lane, byNode: bool, handed: seq<Ref>, k: Endpoint, r: Ref, x: Ref, p: PrimaryBlock)
    requires LaneInv(lane, byNode, handed) && r in Entry(lane.pending, k)
    ensures var t := Retain(Entry(lane.pending, k), r.primary);
            && Count(t, x) == Count(Entry(lane.pending, k), x) - (if x == r then 1 else 0)
            && CountPrimary(t, p) == CountPrimary(Entry(lane.pending, k), p) - if p == r.primary then 1 else 0
  {
    hide Count, CountPrimary, KeyOf, LaneInv, Retain;
    LaneDistinct(lane, byNode, handed, k, r.primary);
    RetainOne(Entry(lane.pending, k), r, x, p);
  }

  /** A pending bundle is finished. */
  lemma FinishKeepsLane(lane: Lane, byNode: bool, handed: seq<Ref>, k: Endpoint, r: Ref)
    requires LaneInv(lane, byNode, handed) && r in Entry(lane.pending, k)
    ensures LaneInv(Finish(lane, k, r), byNode, handed)
  {
    hide Count, CountPrimary, KeyOf, LaneInv, KeyedAt, Retain;
    var q, pend := Entry(lane.queues, k), Entry(lane.pending, k);
    var t := Retain(pend, r.primary);
    PendingKey(lane, byNode, handed, k, r);
    LaneKeys(lane, byNode, handed, k);
    KeyedOne(r, byNode);
    RetainKeyed(pend, r.primary, byNode, k);
    CountNothing();
    forall x
      ensures Count(t, x) == Count(pend, x) - if x == r then 1 else 0
      ensures Count([r], x) == if r == x then 1 else 0
    {
      DismissCounts(lane, byNode, handed, k, r, x, x.primary);
      CountOne(r, x, x.primary);
    }
    forall p
      ensures CountPrimary(q, p) + CountPrimary(t, p) <= 1
    {
      DismissCounts(lane, byNode, handed, k, r, r, p);
      LaneDistinct(lane, byNode, handed, k, p);
    }
    assert lane.requests + [] == lane.requests;
    NothingNew(handed);
    ChangeKeepsLane(lane, Finish(lane, k, r), byNode, handed, [], k, q, t, [], [r]);
  }

  /** A pending bundle goes back to the front of its queue. */
  lemma FailKeepsLane(lane: Lane, byNode: bool, handed: seq<Ref>, k: Endpoint, r: Ref)
    requires LaneInv(lane, byNode, handed) && r in Entry(lane.pending, k)
    ensures LaneInv(PushFront(Dismiss(lane, k, r), k, r), byNode, handed)
  {
    hide Count, CountPrimary, KeyOf, LaneInv, KeyedAt, Retain;
    var q, pend := Entry(lane.queues, k), Entry(lane.pending, k);
    var t := Retain(pend, r.primary);
    PendingKey(lane, byNode, handed, k, r);
    LaneKeys(lane, byNode, handed, k);
    KeyedOne(r, byNode);
    KeyedConcat([r], q, byNode, k);
    RetainKeyed(pend, r.primary, byNode, k);
    CountNothing();
    forall x
      ensures Count([r] + q, x) + Count(t, x) == Count(q, x) + Count(pend, x)
    {
      DismissCounts(lane, byNode, handed, k, r, x, x.primary);
      CountOne(r, x, x.primary);
      CountConcat([r], q, x, x.primary);
    }
    forall p
      ensures CountPrimary([r] + q, p) + CountPrimary(t, p) <= 1
    {
      DismissCounts(lane, byNode, handed, k, r, r, p);
      CountOne(r, r, p);
      CountConcat([r], q, r, p);
      LaneDistinct(lane, byNode, handed, k, p);
    }
    assert lane.requests + [] == lane.requests && lane.finished + [] == lane.finished;
    NothingNew(handed);
    ChangeKeepsLane(lane, PushFront(Dismiss(lane, k, r), k, r), byNode, handed, [], k, [r] + q, t, [], []);
  }

  // ----- the agent

  /** All references handed in so far, for clients and for nodes. */
  datatype Handed = Handed(local: seq<Ref>, remote: seq<Ref>)

  ghost predicate AgentInv(a: Agent, h: Handed) {
    LaneInv(a.local, false, h.local) && LaneInv(a.remote, true, h.remote)
  }

  function HandIn(h: Handed, ev: AgentEvent): Handed {
    if ev.Updated? && ev.bundle.state.DeliveryQueued? then h.(local := h.local + [ev.bundle])
    else if ev.Updated? && ev.bundle.state.ForwardingQueued? then h.(remote := h.remote + [ev.bundle])
    else h
  }

  /** What the other agents see to: a queued bundle is not live yet, and one for a client is no fragment; a result is
      for a bundle sent to that destination and not answered before; and a peer is a node. */
  predicate Admissible(a: Agent, ev: AgentEvent) {
    match ev
    case Updated(r, _) =>
      && (r.state.DeliveryQueued? ==>
            LiveCount(a.local, KeyOf(false, r), r.primary) == 0 && r.primary.fragmentOffset.None?)
      && (r.state.ForwardingQueued? ==> LiveCount(a.remote, KeyOf(true, r), r.primary) == 0)
    case BundleDelivered(e, r, _) => r in Entry(a.local.pending, e)
    case DeliveryFailed(e, r) => r in Entry(a.local.pending, e)
    case BundleForwarded(e, r, _) => r in Entry(a.remote.pending, NodeOf(e))
    case ForwardingFailed(e, r) => r in Entry(a.remote.pending, NodeOf(e))
    case PeerConnected(e, _) => NodeOf(e) == e
    case PeerDisconnected(e) => NodeOf(e) == e
    case _ => true
  }

  /** No queue of a client ever holds a fragment. */
  lemma ClientQueuesAreWhole(lane: Lane, handed: seq<Ref>, k: Endpoint)
    requires LaneInv(lane, false, handed)
    ensures NoFragments(Entry(lane.queues, k))
  {
    hide Accounted, DistinctLive, KeyOf, Entry;
    LaneKeys(lane, false, handed, k);
    assert KeyedAt(Entry(lane.queues, k), false, k);
  }

  lemma LocalKeepsInv(a: Agent, h: Handed, destination: Endpoint, answers: seq<Answer>)
    requires AgentInv(a, h)
    ensures DeliverLocal(a, destination, answers).Some?
    ensures AgentInv(DeliverLocal(a, destination, answers).value.0, h)
  {
    hide LaneInv, Loop, ClientLoop, Applied, NoFragments;
    ClientQueuesAreWhole(a.local, h.local, destination);
    ClientLoopIsLoop(Entry(a.local.queues, destination), answers);
    LoopKeepsLane(a.local, false, h.local, destination, None, answers);
  }

  lemma RemoteKeepsInv(a: Agent, h: Handed, destination: Endpoint, answers: seq<Answer>)
    requires AgentInv(a, h)
    ensures AgentInv(DeliverRemote(a, destination, answers).0, h)
  {
    hide LaneInv, Loop, Applied, NodeOf;
    var d := NodeOf(destination);
    if Reachable(a, d) {
      var route := a.routes[d];
      LoopKeepsLane(a.remote, true, h.remote, d, SmallerSize(route.maxSize, a.routes[route.nextHop].maxSize), answers);
    }
  }

  lemma {:induction false} AllKeepInv(a: Agent, h: Handed, order: seq<Endpoint>, answers: seq<Answer>)
    requires AgentInv(a, h)
    ensures AgentInv(DeliverAll(a, order, answers), h)
    decreases |order|
  {
    hide AgentInv, DeliverRemote;
    if order != [] {
      RemoteKeepsInv(a, h, order[0], answers);
      var (a', answers') := DeliverRemote(a, order[0], answers);
      AllKeepInv(a', h, order[1..], answers');
    }
  }

  lemma EventKeepsInv(a: Agent, h: Handed, ev: AgentEvent)
    requires AgentInv(a, h) && Admissible(a, ev)
    ensures HandleEvent(a, ev).Some? && AgentInv(HandleEvent(a, ev).value, HandIn(h, ev))
  {
    hide LaneInv, DeliverLocal, DeliverRemote, DeliverAll, PushBack, PushFront, Finish, Dismiss, NodeOf, LiveCount;
    match ev {
      case Updated(r, answers) =>
        var destination := r.primary.destination;
        if r.state.DeliveryQueued? {
          PushKeepsLane(a.local, false, h.local, r);
          LocalKeepsInv(a.(local := PushBack(a.local, destination, r)), HandIn(h, ev), destination, answers);
        } else if r.state.ForwardingQueued? {
          PushKeepsLane(a.remote, true, h.remote, r);
          RemoteKeepsInv(a.(remote := PushBack(a.remote, NodeOf(destination), r)), HandIn(h, ev), destination, answers);
        }
      case BundleDelivered(e, r, answers) =>
        FinishKeepsLane(a.local, false, h.local, e, r);
        LocalKeepsInv(a.(local := Finish(a.local, e, r)), h, e, answers);
      case DeliveryFailed(e, r) => FailKeepsLane(a.local, false, h.local, e, r);
      case ClientConnected(e, answers) => LocalKeepsInv(a.(clients := a.clients + {e}), h, e, answers);
      case ClientDisconnected(_) =>
      case PeerConnected(e, answers) => RemoteKeepsInv(a.(peers := a.peers + {e}), h, e, answers);
      case PeerDisconnected(_) =>
      case BundleForwarded(e, r, answers) =>
        FinishKeepsLane(a.remote, true, h.remote, NodeOf(e), r);
        RemoteKeepsInv(a.(remote := Finish(a.remote, NodeOf(e), r)), h, NodeOf(e), answers);
      case ForwardingFailed(e, r) => FailKeepsLane(a.remote, true, h.remote, NodeOf(e), r);
      case RoutesUpdated(routes, order, answers) => AllKeepInv(a.(routes := routes), h, order, answers);
    }
  }

  // ----- whole runs

  function RunAgent(a: Agent, evs: seq<AgentEvent>): Option<Agent>
    decreases |evs|
  {
    if evs == [] then Some(a)
    else match HandleEvent(a, evs[0])
         case None => None
         case Some(a') => RunAgent(a', evs[1..])
  }

  function HandAll(h: Handed, evs: seq<AgentEvent>): Handed
    decreases |evs|
  {
    if evs == [] then h else HandAll(HandIn(h, evs[0]), evs[1..])
  }

  predicate AdmissibleRun(a: Agent, evs: seq<AgentEvent>)
    decreases |evs|
  {
    evs == []
    || (Admissible(a, evs[0]) && (HandleEvent(a, evs[0]).Some? ==> AdmissibleRun(HandleEvent(a, evs[0]).value, evs[1..])))
  }

  lemma {:induction false} RunKeepsInv(a: Agent, h: Handed, evs: seq<AgentEvent>)
    requires AgentInv(a, h) && AdmissibleRun(a, evs)
    ensures RunAgent(a, evs).Some? && AgentInv(RunAgent(a, evs).value, HandAll(h, evs))
    decreases |evs|
  {
    hide AgentInv, HandleEvent, HandIn, Admissible;
    if evs != [] {
      EventKeepsInv(a, h, evs[0]);
      RunKeepsInv(HandleEvent(a, evs[0]).value, HandIn(h, evs[0]), evs[1..]);
    }
  }

  const NEW_LANE := Lane(map[], map[], [], [])

  const NEW_AGENT := Agent(NEW_LANE, NEW_LANE, {}, {}, map[])

  lemma NewAgentIsEmpty()
    ensures AgentInv(NEW_AGENT, Handed([], []))
  {
    CountNothing();
  }

  /** No bundle is lost or duplicated: over every run of events from the start of the agent, with peers and clients full
      or closed at any point, nothing panics, each reference is in exactly as many of queue, pending, fragment requests and finished as
      it was handed in; and no two queued or pending bundles for one destination share a primary block. */
  lemma NothingLostOrDuplicated(evs: seq<AgentEvent>, r: Ref)
    requires AdmissibleRun(NEW_AGENT, evs)
    ensures RunAgent(NEW_AGENT, evs).Some?
    ensures var a, h := RunAgent(NEW_AGENT, evs).value, HandAll(Handed([], []), evs);
            && Places(a.local, false, r) == Count(h.local, r) && Places(a.remote, true, r) == Count(h.remote, r)
            && (forall k, p :: LiveCount(a.local, k, p) <= 1 && LiveCount(a.remote, k, p) <= 1)
  {
    hide Places, RunAgent, HandAll, Count, LiveCount;
    NewAgentIsEmpty();
    RunKeepsInv(NEW_AGENT, Handed([], []), evs);
  }
}
