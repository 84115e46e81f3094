/** What each event does to the queues of the protocol agent, told by the sizes of the bundles and the limits of the
    routes, without the loops. */
module AgentEffects {
  import opened Bytes
  import opened Bundle
  import opened Storage
  import opened ProtocolAgent

  // ----- the loop, with any answers

  /** The first n sends are taken. */
  predicate Takes(answers: seq<Answer>, n: nat) {
    forall i :: 0 <= i < n && i < |answers| ==> answers[i].Taken?
  }

  function Drop(answers: seq<Answer>, n: nat): seq<Answer> {
    if n <= |answers| then answers[n..] else []
  }

  lemma TakesOne(answers: seq<Answer>, n: nat)
    requires n > 0 && Takes(answers, n)
    ensures NextAnswer(answers).Taken? && Takes(LaterAnswers(answers), n - 1)
    ensures Drop(LaterAnswers(answers), n - 1) == Drop(answers, n)
  {
  }

  /** The loop goes through a part of its queue whose sends are taken: what fits is sent, what can be split is requested,
      and the rest moves behind. */
  lemma {:induction false} LoopPasses(part: seq<Ref>, behind: seq<Ref>, done: seq<Ref>, maxSize: Option<nat>,
                                      answers: seq<Answer>)
    requires DistinctIds(part + (behind + done)) && Takes(answers, |Fitting(part, maxSize)|)
    ensures var done' := done + Stuck(part, maxSize);
            var d := Loop(behind + done', Ids(done'), maxSize, Drop(answers, |Fitting(part, maxSize)|));
            Loop(part + (behind + done), Ids(done), maxSize, answers)
            == d.(sent := Fitting(part, maxSize) + d.sent, requests := Requested(part, maxSize) + d.requests)
    decreases |part|
  {
    hide TooLarge, Unfragmentable, IdOf, DistinctIds, Unvisited, Loop, Ids;
    var queue := part + (behind + done);
    var fits, reqs, stuck := Fitting(part, maxSize), Requested(part, maxSize), Stuck(part, maxSize);
    if part == [] {
      assert queue == behind + done && done + [] == done && Drop(answers, 0) == answers;
      var d := Loop(behind + done, Ids(done), maxSize, answers);
      assert [] + d.sent == d.sent && [] + d.requests == d.requests;
    } else {
      hide Fitting, Requested, Stuck;
      var b, tail := part[0], part[1..];
      assert queue[0] == b && queue[1..] == tail + (behind + done);
      NewHead(part, behind, done);
      LoopStep(queue, Ids(done), maxSize, answers);
      PartsStep(part, maxSize);
      if !TooLarge(b, maxSize) {
        TakesOne(answers, |fits|);
        LoopPasses(tail, behind, done, maxSize, LaterAnswers(answers));
        SameSent(b, Fitting(tail, maxSize), Loop(behind + (done + stuck), Ids(done + stuck), maxSize, Drop(answers, |fits|)).sent);
      } else if Unfragmentable(b, maxSize.value) {
        NewTail(part, behind, done);
        assert queue[1..] + [b] == tail + (behind + (done + [b]));
        LoopPasses(tail, behind, done + [b], maxSize, answers);
        assert (done + [b]) + Stuck(tail, maxSize) == done + stuck;
      } else {
        LoopPasses(tail, behind, done, maxSize, answers);
        SameRequests(FragmentBundle(b, maxSize.value), Requested(tail, maxSize),
                     Loop(behind + (done + stuck), Ids(done + stuck), maxSize, Drop(answers, |fits|)).requests);
      }
    }
  }

  lemma SameSent(b: Ref, s: seq<Ref>, t: seq<Ref>)
    ensures [b] + (s + t) == ([b] + s) + t
  {
  }

  lemma SameRequests(b: FragmentBundle, s: seq<FragmentBundle>, t: seq<FragmentBundle>)
    ensures [b] + (s + t) == ([b] + s) + t
  {
  }

  lemma NewHead(part: seq<Ref>, behind: seq<Ref>, done: seq<Ref>)
    requires part != [] && DistinctIds(part + (behind + done))
    ensures IdOf(part[0]) !in Ids(done) && DistinctIds(part[1..] + (behind + done))
  {
    hide DistinctIds, Ids;
    assert part + (behind + done) == (part + behind) + done && (part + behind)[1..] == part[1..] + behind;
    assert part[1..] + (behind + done) == (part[1..] + behind) + done;
    HeadIsNew(part + behind, done);
  }

  lemma NewTail(part: seq<Ref>, behind: seq<Ref>, done: seq<Ref>)
    requires part != [] && DistinctIds(part + (behind + done))
    ensures DistinctIds(part[1..] + (behind + (done + [part[0]])))
            && Ids(done + [part[0]]) == Ids(done) + {IdOf(part[0])}
  {
    hide DistinctIds, Ids;
    assert part + (behind + done) == (part + behind) + done && (part + behind)[1..] == part[1..] + behind;
    assert part[1..] + (behind + (done + [part[0]])) == (part[1..] + behind) + (done + [part[0]]);
    Rotated(part + behind, done);
  }

  /** Every send is taken. */
  lemma LoopTakesAll(queue: seq<Ref>, maxSize: Option<nat>, answers: seq<Answer>)
    requires DistinctIds(queue) && Takes(answers, |Fitting(queue, maxSize)|)
    ensures Loop(queue, {}, maxSize, answers)
            == Delivery(Stuck(queue, maxSize), Fitting(queue, maxSize), Requested(queue, maxSize), Taken,
                        Drop(answers, |Fitting(queue, maxSize)|))
  {
    hide Loop, Fitting, Stuck, Requested, DistinctIds;
    var none: seq<Ref> := [];
    var stuck := Stuck(queue, maxSize);
    assert queue + (none + none) == queue && Ids(none) == {} && none + stuck == stuck;
    LoopPasses(queue, none, none, maxSize, answers);
    LoopStopsBehind(stuck, maxSize, Drop(answers, |Fitting(queue, maxSize)|));
    assert Fitting(queue, maxSize) + [] == Fitting(queue, maxSize);
    assert Requested(queue, maxSize) + [] == Requested(queue, maxSize);
  }

  lemma LoopStopsBehind(done: seq<Ref>, maxSize: Option<nat>, answers: seq<Answer>)
    ensures Loop([] + done, Ids(done), maxSize, answers) == Delivery(done, [], [], Taken, answers)
  {
    assert [] + done == done;
  }

  /** A send that is not taken: its bundle goes behind everything, and what was not looked at comes first. */
  lemma LoopBounces(part: seq<Ref>, b: Ref, behind: seq<Ref>, maxSize: Option<nat>, answers: seq<Answer>)
    requires DistinctIds(part + ([b] + behind)) && !TooLarge(b, maxSize)
    requires var n := |Fitting(part, maxSize)|; n < |answers| && Takes(answers, n) && !answers[n].Taken?
    ensures var n := |Fitting(part, maxSize)|;
            Loop(part + ([b] + behind), {}, maxSize, answers)
            == Delivery(behind + Stuck(part, maxSize) + [b], Fitting(part, maxSize), Requested(part, maxSize), answers[n],
                        answers[n + 1..])
  {
    hide Loop, Fitting, Stuck, Requested, DistinctIds, TooLarge, IdOf, Ids, Takes;
    var n, none: seq<Ref>, stuck := |Fitting(part, maxSize)|, [], Stuck(part, maxSize);
    NoIds();
    assert [b] + behind + none == [b] + behind && none + stuck == stuck;
    LoopPasses(part, [b] + behind, none, maxSize, answers);
    BouncedIsNew(part, b, behind, maxSize);
    BounceNow(b, behind, stuck, maxSize, answers[n..]);
    assert answers[n..][1..] == answers[n + 1..];
    assert Fitting(part, maxSize) + [] == Fitting(part, maxSize);
    assert Requested(part, maxSize) + [] == Requested(part, maxSize);
  }

  lemma BounceNow(b: Ref, behind: seq<Ref>, done: seq<Ref>, maxSize: Option<nat>, answers: seq<Answer>)
    requires !TooLarge(b, maxSize) && IdOf(b) !in Ids(done) && answers != [] && !answers[0].Taken?
    ensures Loop(([b] + behind) + done, Ids(done), maxSize, answers)
            == Delivery(behind + done + [b], [], [], answers[0], answers[1..])
  {
    hide Loop, TooLarge, IdOf, Ids;
    var queue := ([b] + behind) + done;
    assert queue[0] == b && queue[1..] == behind + done;
    LoopStep(queue, Ids(done), maxSize, answers);
  }

  lemma NoIds()
    ensures Ids([]) == {}
  {
  }

  lemma BouncedIsNew(part: seq<Ref>, b: Ref, behind: seq<Ref>, maxSize: Option<nat>)
    requires DistinctIds(part + ([b] + behind))
    ensures IdOf(b) !in Ids(Stuck(part, maxSize))
  {
    hide IdOf;
    forall r | r in Stuck(part, maxSize)
      ensures IdOf(r) != IdOf(b)
    {
      StuckFrom(part, maxSize, r);
      var i :| 0 <= i < |part| && part[i] == r;
      var q := part + ([b] + behind);
      assert q[i] == r && q[|part|] == b;
    }
  }

  lemma {:induction false} StuckFrom(queue: seq<Ref>, maxSize: Option<nat>, r: Ref)
    requires r in Stuck(queue, maxSize)
    ensures r in queue
  {
    hide TooLarge, Unfragmentable;
    if r !in Stuck(queue[1..], maxSize) {
      assert r == queue[0];
    } else {
      StuckFrom(queue[1..], maxSize, r);
    }
  }

  // ----- bundles and limits

  /** Two limits that may be absent: that of the route and that of its next hop. */
  datatype Limits = Limits(route: Option<nat>, hop: Option<nat>)

  predicate Within(n: nat, l: Limits) {
    (l.route.Some? ==> n <= l.route.value) && (l.hop.Some? ==> n <= l.hop.value)
  }

  /** The limit that binds. */
  predicate Binding(n: nat, l: Limits) {
    (l.route == Some(n) || l.hop == Some(n)) && Within(n, l)
  }

  /** Larger than a limit, but allowed to be cut and not known to stay larger. */
  predicate Divisible(r: Ref, l: Limits) {
    !Within(r.size, l) && !r.primary.flags.mustNotFragment && (r.minSize.Some? ==> Within(r.minSize.value, l))
  }

  /** The bundles that go out. */
  function Going(queue: seq<Ref>, l: Limits): seq<Ref> {
    if queue == [] then [] else (if Within(queue[0].size, l) then [queue[0]] else []) + Going(queue[1..], l)
  }

  /** The bundles to be cut to size n. */
  function Cutting(queue: seq<Ref>, l: Limits, n: nat): seq<FragmentBundle> {
    if queue == [] then []
    else (if Divisible(queue[0], l) then [FragmentBundle(queue[0], n)] else []) + Cutting(queue[1..], l, n)
  }

  /** The bundles that stay. */
  function Staying(queue: seq<Ref>, l: Limits): seq<Ref> {
    if queue == [] then []
    else (if Within(queue[0].size, l) || Divisible(queue[0], l) then [] else [queue[0]]) + Staying(queue[1..], l)
  }

  /** n is the limit to keep, if there is any. */
  predicate Keeps(n: nat, l: Limits) {
    l == Limits(None, None) || Binding(n, l)
  }

  lemma SmallerIsBinding(l: Limits, n: nat, r: Ref)
    requires Keeps(n, l)
    ensures var m := SmallerSize(l.route, l.hop);
            && m == (if l == Limits(None, None) then None else Some(n))
            && (TooLarge(r, m) <==> !Within(r.size, l))
            && (TooLarge(r, m) ==> (Unfragmentable(r, n) <==> !Divisible(r, l)))
  {
  }

  lemma {:induction false} SortedByLimits(queue: seq<Ref>, l: Limits, n: nat)
    requires Keeps(n, l)
    ensures var m := SmallerSize(l.route, l.hop);
            && Fitting(queue, m) == Going(queue, l) && Stuck(queue, m) == Staying(queue, l)
            && Requested(queue, m) == Cutting(queue, l, n)
  {
    hide Binding, TooLarge, Unfragmentable, SmallerSize, Within;
    if queue != [] {
      SmallerIsBinding(l, n, queue[0]);
      SortedByLimits(queue[1..], l, n);
    }
  }

  // ----- sending to a node

  /** There is a way to node d: its next hop is connected, and is its own next hop. */
  predicate WayTo(a: Agent, d: Endpoint, hop: Endpoint) {
    && d in a.routes && a.routes[d].nextHop == hop && hop in a.peers
    && hop in a.routes && a.routes[hop].nextHop == hop
  }

  function LimitsTo(a: Agent, d: Endpoint, hop: Endpoint): Limits
    requires WayTo(a, d, hop)
  {
    Limits(a.routes[d].maxSize, a.routes[hop].maxSize)
  }

  /** Nothing changes in other queues. */
  ghost predicate OnlyAt(lane: Lane, lane': Lane, d: Endpoint) {
    forall e :: e != d ==> Entry(lane'.queues, e) == Entry(lane.queues, e) && Entry(lane'.pending, e) == Entry(lane.pending, e)
  }

  /** The queue of d has gone out as far as its limits let it. */
  ghost predicate SentTo(lane: Lane, lane': Lane, d: Endpoint, queue: seq<Ref>, l: Limits) {
    && OnlyAt(lane, lane', d)
    && Entry(lane'.queues, d) == Staying(queue, l)
    && Entry(lane'.pending, d) == Entry(lane.pending, d) + Going(queue, l)
    && (exists n :: Keeps(n, l) && lane'.requests == lane.requests + Cutting(queue, l, n))
    && lane'.finished == lane.finished
  }

  function TheLimit(l: Limits): (n: nat)
    ensures Keeps(n, l)
  {
    if l.route.Some? && (l.hop.None? || l.route.value <= l.hop.value) then l.route.value
    else if l.hop.Some? then l.hop.value
    else 0
  }

  /** Sends are taken: the queue is sorted by size and limits. */
  lemma DeliverySends(a: Agent, destination: Endpoint, hop: Endpoint, answers: seq<Answer>)
    requires var d := NodeOf(destination); WayTo(a, d, hop) && DistinctIds(Entry(a.remote.queues, d))
    requires forall i :: 0 <= i < |answers| ==> answers[i].Taken?
    ensures var d, a' := NodeOf(destination), DeliverRemote(a, destination, answers).0;
            && SentTo(a.remote, a'.remote, d, Entry(a.remote.queues, d), LimitsTo(a, d, hop))
            && a' == a.(remote := a'.remote)
    ensures forall i :: 0 <= i < |DeliverRemote(a, destination, answers).1| ==> DeliverRemote(a, destination, answers).1[i].Taken?
  {
    hide Loop, NodeOf, Going, Staying, Cutting, Keeps, Fitting, Stuck, Requested, DistinctIds, SmallerSize;
    var d := NodeOf(destination);
    var l := LimitsTo(a, d, hop);
    var queue, n := Entry(a.remote.queues, d), TheLimit(l);
    var m := SmallerSize(l.route, l.hop);
    LoopTakesAll(queue, m, answers);
    SortedByLimits(queue, l, n);
    if d !in a.remote.queues {
      NothingSorted(l, n);
      assert a.remote.requests + [] == a.remote.requests;
    }
    assert Entry(a.remote.pending, d) + [] == Entry(a.remote.pending, d);
  }

  lemma NothingSorted(l: Limits, n: nat)
    ensures Going([], l) == [] && Staying([], l) == [] && Cutting([], l, n) == []
  {
  }

  /** No way to the node: nothing happens. */
  lemma DeliveryWaits(a: Agent, destination: Endpoint, answers: seq<Answer>)
    requires forall hop :: !WayTo(a, NodeOf(destination), hop)
    ensures DeliverRemote(a, destination, answers) == (a, answers)
  {
    hide Loop, NodeOf;
    var d := NodeOf(destination);
    assert d in a.routes ==> !WayTo(a, d, a.routes[d].nextHop);
  }

  /** A send that is not taken: the bundle goes to the back, what was not looked at to the front, and a closed channel
      costs the connection that is kept under the destination. */
  lemma DeliveryBounces(a: Agent, destination: Endpoint, hop: Endpoint, part: seq<Ref>, b: Ref, behind: seq<Ref>,
                        answers: seq<Answer>)
    requires var d := NodeOf(destination);
             && WayTo(a, d, hop) && d in a.remote.queues && a.remote.queues[d] == part + ([b] + behind)
             && DistinctIds(part + ([b] + behind)) && Within(b.size, LimitsTo(a, d, hop))
             && var n := |Going(part, LimitsTo(a, d, hop))|;
             n < |answers| && Takes(answers, n) && !answers[n].Taken?
    ensures var d, a' := NodeOf(destination), DeliverRemote(a, destination, answers).0;
            var l := LimitsTo(a, d, hop);
            && OnlyAt(a.remote, a'.remote, d)
            && Entry(a'.remote.queues, d) == behind + Staying(part, l) + [b]
            && Entry(a'.remote.pending, d) == Entry(a.remote.pending, d) + Going(part, l)
            && (exists n :: Keeps(n, l) && a'.remote.requests == a.remote.requests + Cutting(part, l, n))
            && a' == a.(remote := a'.remote, peers := if answers[|Going(part, l)|].Closed? then a.peers - {d} else a.peers)
            && a'.remote.finished == a.remote.finished
  {
    hide Loop, NodeOf, Going, Staying, Cutting, Keeps, Fitting, Stuck, Requested, DistinctIds, SmallerSize, TooLarge;
    var d := NodeOf(destination);
    var l := LimitsTo(a, d, hop);
    var n, m := TheLimit(l), SmallerSize(l.route, l.hop);
    SortedByLimits(part, l, n);
    SmallerIsBinding(l, n, b);
    LoopBounces(part, b, behind, m, answers);
    assert Entry(a.remote.pending, d) + [] == Entry(a.remote.pending, d);
  }

  // ----- events for nodes

  predicate AllTaken(answers: seq<Answer>) {
    forall i :: 0 <= i < |answers| ==> answers[i].Taken?
  }

  /** What becomes of the queue of node d, in a lane that was `lane` and with the queue `queue`: sent if there is a way,
      and kept as it is otherwise. */
  ghost predicate Served(a: Agent, lane: Lane, a': Agent, d: Endpoint, queue: seq<Ref>) {
    && a' == a.(remote := a'.remote)
    && (forall hop :: WayTo(a, d, hop) ==> SentTo(lane, a'.remote, d, queue, LimitsTo(a, d, hop)))
    && ((forall hop :: !WayTo(a, d, hop)) ==>
          && OnlyAt(lane, a'.remote, d) && Entry(a'.remote.queues, d) == queue
          && Entry(a'.remote.pending, d) == Entry(lane.pending, d)
          && a'.remote.requests == lane.requests && a'.remote.finished == lane.finished)
  }

  lemma Serves(a: Agent, destination: Endpoint, answers: seq<Answer>)
    requires DistinctIds(Entry(a.remote.queues, NodeOf(destination))) && AllTaken(answers)
    ensures var d := NodeOf(destination);
            Served(a, a.remote, DeliverRemote(a, destination, answers).0, d, Entry(a.remote.queues, d))
  {
    hide DeliverRemote, NodeOf, DistinctIds, SentTo, Entry, WayTo;
    var d := NodeOf(destination);
    if hop :| WayTo(a, d, hop) {
      forall h | WayTo(a, d, h)
        ensures SentTo(a.remote, DeliverRemote(a, destination, answers).0.remote, d, Entry(a.remote.queues, d),
                       LimitsTo(a, d, h))
      {
        DeliverySends(a, destination, h, answers);
      }
      DeliverySends(a, destination, hop, answers);
    } else {
      DeliveryWaits(a, destination, answers);
    }
  }

  /** A lane in which only the queue of d differs. */
  lemma ServedFrom(a: Agent, lane: Lane, a': Agent, d: Endpoint)
    requires Served(a, a.remote, a', d, Entry(a.remote.queues, d)) && OnlyAt(lane, a.remote, d)
    requires Entry(a.remote.pending, d) == Entry(lane.pending, d)
    requires a.remote.requests == lane.requests && a.remote.finished == lane.finished
    ensures Served(a, lane, a', d, Entry(a.remote.queues, d))
  {
    hide WayTo, Staying, Going, Cutting, Keeps;
  }

  /** A bundle to be forwarded joins the end of the queue of its node, and the queue goes out. */
  lemma ForwardingIsQueued(a: Agent, r: Ref, answers: seq<Answer>)
    requires r.state.ForwardingQueued? && AllTaken(answers)
    requires DistinctIds(Entry(a.remote.queues, NodeOf(r.primary.destination)) + [r])
    ensures var d, o := NodeOf(r.primary.destination), HandleEvent(a, Updated(r, answers));
            && o.Some? && o.value == a.(remote := o.value.remote)
            && Served(a, a.remote, o.value, d, Entry(a.remote.queues, d) + [r])
  {
    hide DeliverRemote, NodeOf, DistinctIds, Served, WayTo;
    var d := NodeOf(r.primary.destination);
    var a1 := a.(remote := a.remote.(queues := a.remote.queues[d := Entry(a.remote.queues, d) + [r]]));
    Serves(a1, r.primary.destination, answers);
    var a' := DeliverRemote(a1, r.primary.destination, answers).0;
    ServedFrom(a1, a.remote, a', d);
    ServedRest(a1, a.remote, a', d, Entry(a.remote.queues, d) + [r]);
    SameWays(a1, a, a.remote, a', d, Entry(a.remote.queues, d) + [r]);
  }

  /** Ways and limits depend on routes and peers alone. */
  lemma SameWays(a1: Agent, a: Agent, lane: Lane, a': Agent, d: Endpoint, queue: seq<Ref>)
    requires Served(a1, lane, a', d, queue) && a1 == a.(remote := a1.remote)
    ensures Served(a, lane, a', d, queue)
  {
    hide SentTo, OnlyAt;
    assert forall hop :: WayTo(a1, d, hop) <==> WayTo(a, d, hop);
    forall hop | WayTo(a, d, hop)
      ensures SentTo(lane, a'.remote, d, queue, LimitsTo(a, d, hop))
    {
      assert WayTo(a1, d, hop) && LimitsTo(a1, d, hop) == LimitsTo(a, d, hop);
    }
  }

  /** A node that connects is sent what waits for it. */
  lemma PeerIsServed(a: Agent, e: Endpoint, answers: seq<Answer>)
    requires NodeOf(e) == e && AllTaken(answers) && DistinctIds(Entry(a.remote.queues, e))
    ensures var a1, o := a.(peers := a.peers + {e}), HandleEvent(a, PeerConnected(e, answers));
            && o.Some? && o.value == a1.(remote := o.value.remote)
            && Served(a1, a.remote, o.value, e, Entry(a.remote.queues, e))
  {
    hide DeliverRemote, NodeOf, DistinctIds, Served, WayTo;
    var a1 := a.(peers := a.peers + {e});
    Serves(a1, e, answers);
    ServedRest(a1, a.remote, DeliverRemote(a1, e, answers).0, e, Entry(a.remote.queues, e));
  }

  lemma ServedRest(a: Agent, lane: Lane, a': Agent, d: Endpoint, queue: seq<Ref>)
    requires Served(a, lane, a', d, queue)
    ensures a' == a.(remote := a'.remote)
  {
  }

  /** Without what has this primary block. */
  function Without(s: seq<Ref>, p: PrimaryBlock): seq<Ref> {
    if s == [] then [] else if s[0].primary == p then Without(s[1..], p) else [s[0]] + Without(s[1..], p)
  }

  lemma {:induction false} RetainsOthers(s: seq<Ref>, p: PrimaryBlock)
    ensures Retain(s, p) == Without(s, p)
  {
    if s != [] {
      RetainsOthers(s[1..], p);
    }
  }

  /** The lane with a bundle taken off what is pending for d. */
  ghost predicate Answered(lane: Lane, lane': Lane, d: Endpoint, r: Ref) {
    && OnlyAt(lane, lane', d) && lane'.requests == lane.requests && Entry(lane'.queues, d) == Entry(lane.queues, d)
    && Entry(lane'.pending, d) == Without(Entry(lane.pending, d), r.primary)
  }

  lemma DismissAnswers(lane: Lane, d: Endpoint, r: Ref)
    ensures Answered(lane, Dismiss(lane, d, r), d, r) && Dismiss(lane, d, r).finished == lane.finished
    ensures Answered(lane, Finish(lane, d, r), d, r) && Finish(lane, d, r).finished == lane.finished + [r]
  {
    hide Retain, Without;
    RetainsOthers(Entry(lane.pending, d), r.primary);
    NothingLeft(r.primary);
  }

  lemma NothingLeft(p: PrimaryBlock)
    ensures Without([], p) == []
  {
  }

  /** A forwarded bundle is no longer pending, is reported to the storage, and the queue of its node goes on. */
  lemma ForwardedIsFinished(a: Agent, e: Endpoint, r: Ref, answers: seq<Answer>)
    requires AllTaken(answers) && DistinctIds(Entry(a.remote.queues, NodeOf(e)))
    ensures var d, o := NodeOf(e), HandleEvent(a, BundleForwarded(e, r, answers));
            && o.Some? && o.value == a.(remote := o.value.remote)
            && exists lane :: Answered(a.remote, lane, d, r) && lane.finished == a.remote.finished + [r]
                              && Served(a, lane, o.value, d, Entry(a.remote.queues, d))
  {
    hide DeliverRemote, NodeOf, DistinctIds, Served, WayTo, Answered, Finish;
    var d := NodeOf(e);
    NodeOfNode(e);
    var lane := Finish(a.remote, d, r);
    DismissAnswers(a.remote, d, r);
    AnsweredQueue(a.remote, lane, d, r);
    var a1 := a.(remote := lane);
    Serves(a1, d, answers);
    var a' := DeliverRemote(a1, d, answers).0;
    ServedRest(a1, lane, a', d, Entry(lane.queues, d));
    SameWays(a1, a, lane, a', d, Entry(lane.queues, d));
  }

  lemma AnsweredQueue(lane: Lane, lane': Lane, d: Endpoint, r: Ref)
    requires Answered(lane, lane', d, r)
    ensures Entry(lane'.queues, d) == Entry(lane.queues, d)
  {
  }

  /** The lane after a failure: the bundle is no longer pending, and is first in its queue. */
  ghost predicate Requeued(lane: Lane, lane': Lane, d: Endpoint, r: Ref) {
    && OnlyAt(lane, lane', d) && lane'.requests == lane.requests && lane'.finished == lane.finished
    && Entry(lane'.queues, d) == [r] + Entry(lane.queues, d)
    && Entry(lane'.pending, d) == Without(Entry(lane.pending, d), r.primary)
  }

  /** A failed delivery puts the bundle in front of its queue, for nodes and for clients. */
  lemma FailureRequeues(a: Agent, e: Endpoint, r: Ref)
    ensures var o := HandleEvent(a, ForwardingFailed(e, r));
            o.Some? && o.value == a.(remote := o.value.remote) && Requeued(a.remote, o.value.remote, NodeOf(e), r)
    ensures var o := HandleEvent(a, DeliveryFailed(e, r));
            o.Some? && o.value == a.(local := o.value.local) && Requeued(a.local, o.value.local, e, r)
  {
    hide Dismiss, NodeOf, Without;
    DismissAnswers(a.remote, NodeOf(e), r);
    DismissAnswers(a.local, e, r);
  }

  // ----- events for clients

  /** A fragment in the queue of a client that takes everything is found. */
  lemma {:induction false} FragmentsPanic(queue: seq<Ref>, answers: seq<Answer>)
    requires AllTaken(answers)
    ensures ClientLoop(queue, answers).None? <==> !NoFragments(queue)
    ensures NoFragments(queue) ==>
              ClientLoop(queue, answers).value.(answers := []) == Delivery([], queue, [], Taken, [])
    decreases |queue|
  {
    if queue != [] {
      assert AllTaken(LaterAnswers(answers));
      FragmentsPanic(queue[1..], LaterAnswers(answers));
      assert queue == [queue[0]] + queue[1..];
      assert NoFragments(queue) <==> queue[0].primary.fragmentOffset.None? && NoFragments(queue[1..]) by {
        assert forall i :: 0 < i < |queue| ==> queue[i] == queue[1..][i - 1];
      }
    }
  }

  /** A connected client has been handed its whole queue; the queue of another one waits. */
  ghost predicate Handed(a: Agent, lane: Lane, a': Agent, e: Endpoint, queue: seq<Ref>) {
    && a' == a.(local := a'.local) && OnlyAt(lane, a'.local, e)
    && a'.local.requests == lane.requests && a'.local.finished == lane.finished
    && (e in a.clients ==> Entry(a'.local.queues, e) == [] && Entry(a'.local.pending, e) == Entry(lane.pending, e) + queue)
    && (e !in a.clients ==> Entry(a'.local.queues, e) == queue && Entry(a'.local.pending, e) == Entry(lane.pending, e))
  }

  lemma HandsOver(a: Agent, e: Endpoint, answers: seq<Answer>)
    requires AllTaken(answers)
    ensures var o, queue := DeliverLocal(a, e, answers), Entry(a.local.queues, e);
            && (o.None? <==> e in a.clients && !NoFragments(queue))
            && (o.Some? ==> Handed(a, a.local, o.value.0, e, queue))
  {
    hide ClientLoop, NoFragments;
    var queue := Entry(a.local.queues, e);
    FragmentsPanic(queue, answers);
    assert a.local.requests + [] == a.local.requests;
    assert Entry(a.local.pending, e) + [] == Entry(a.local.pending, e);
  }

  lemma HandedFrom(a: Agent, a0: Agent, a': Agent, e: Endpoint)
    requires Handed(a, a.local, a', e, Entry(a.local.queues, e)) && a == a0.(local := a.local) && OnlyAt(a0.local, a.local, e)
    requires Entry(a.local.pending, e) == Entry(a0.local.pending, e)
    requires a.local.requests == a0.local.requests && a.local.finished == a0.local.finished
    ensures Handed(a0, a0.local, a', e, Entry(a.local.queues, e))
  {
  }

  /** A bundle for a client joins the end of its queue and is handed over if the client is there; only a fragment in
      that queue makes the agent panic. */
  lemma DeliveryIsQueued(a: Agent, r: Ref, answers: seq<Answer>)
    requires r.state.DeliveryQueued? && AllTaken(answers)
    ensures var e, o := r.primary.destination, HandleEvent(a, Updated(r, answers));
            var queue := Entry(a.local.queues, e) + [r];
            && (o.None? <==> e in a.clients && !NoFragments(queue))
            && (o.Some? ==> Handed(a, a.local, o.value, e, queue))
  {
    hide DeliverLocal, NoFragments, Handed;
    var e := r.primary.destination;
    var a1 := a.(local := a.local.(queues := a.local.queues[e := Entry(a.local.queues, e) + [r]]));
    HandsOver(a1, e, answers);
    if DeliverLocal(a1, e, answers).Some? {
      HandedFrom(a1, a, DeliverLocal(a1, e, answers).value.0, e);
    }
  }

  /** A client that connects is handed its queue. */
  lemma ClientIsServed(a: Agent, e: Endpoint, answers: seq<Answer>)
    requires AllTaken(answers)
    ensures var a1, o, queue := a.(clients := a.clients + {e}), HandleEvent(a, ClientConnected(e, answers)),
                                Entry(a.local.queues, e);
            && (o.None? <==> !NoFragments(queue))
            && (o.Some? ==> Handed(a1, a.local, o.value, e, queue))
  {
    hide DeliverLocal, NoFragments, Handed;
    HandsOver(a.(clients := a.clients + {e}), e, answers);
  }

  /** A delivered bundle is no longer pending, is reported to the storage, and the queue of its client goes on. */
  lemma DeliveredIsFinished(a: Agent, e: Endpoint, r: Ref, answers: seq<Answer>)
    requires AllTaken(answers)
    ensures var o, queue := HandleEvent(a, BundleDelivered(e, r, answers)), Entry(a.local.queues, e);
            && (o.None? <==> e in a.clients && !NoFragments(queue))
            && (o.Some? ==> exists lane :: Answered(a.local, lane, e, r) && lane.finished == a.local.finished + [r]
                                           && Handed(a.(local := lane), lane, o.value, e, queue))
  {
    hide DeliverLocal, NoFragments, Handed, Answered, Finish;
    var lane := Finish(a.local, e, r);
    DismissAnswers(a.local, e, r);
    AnsweredQueue(a.local, lane, e, r);
    HandsOver(a.(local := lane), e, answers);
  }

  /** A client that does not take a bundle: the bundle goes to the back, and a closed channel costs its connection. */
  lemma HandoverBounces(a: Agent, e: Endpoint, part: seq<Ref>, b: Ref, behind: seq<Ref>, answers: seq<Answer>)
    requires e in a.clients && e in a.local.queues && a.local.queues[e] == part + ([b] + behind)
    requires NoFragments(part + [b]) && |part| < |answers| && Takes(answers, |part|) && !answers[|part|].Taken?
    ensures var o := DeliverLocal(a, e, answers);
            && o.Some?
            && var a' := o.value.0;
            && OnlyAt(a.local, a'.local, e) && Entry(a'.local.queues, e) == behind + [b]
            && Entry(a'.local.pending, e) == Entry(a.local.pending, e) + part
            && a' == a.(local := a'.local, clients := if answers[|part|].Closed? then a.clients - {e} else a.clients)
  {
    hide ClientLoop, NoFragments;
    ClientLoopBounces(part, b, behind, answers);
    assert Entry(a.local.pending, e) + [] == Entry(a.local.pending, e);
  }

  lemma TailHasNoFragments(part: seq<Ref>, b: Ref)
    requires NoFragments(part + [b])
    ensures b.primary.fragmentOffset.None?
    ensures part != [] ==> part[0].primary.fragmentOffset.None? && NoFragments(part[1..] + [b])
  {
    assert (part + [b])[|part|] == b;
    if part != [] {
      assert (part + [b])[0] == part[0];
      assert forall i :: 0 <= i < |part| ==> (part[1..] + [b])[i] == (part + [b])[i + 1];
    }
  }

  lemma {:induction false} ClientLoopBounces(part: seq<Ref>, b: Ref, behind: seq<Ref>, answers: seq<Answer>)
    requires NoFragments(part + [b]) && |part| < |answers| && Takes(answers, |part|) && !answers[|part|].Taken?
    ensures ClientLoop(part + ([b] + behind), answers)
            == Some(Delivery(behind + [b], part, [], answers[|part|], answers[|part| + 1..]))
    decreases |part|
  {
    hide NoFragments, Takes;
    var queue := part + ([b] + behind);
    TailHasNoFragments(part, b);
    if part == [] {
      assert queue[0] == b && queue[1..] == behind;
    } else {
      var tail := part[1..];
      assert queue[0] == part[0] && queue[1..] == tail + ([b] + behind);
      TakesOne(answers, |part|);
      ClientLoopBounces(tail, b, behind, answers[1..]);
      assert part == [part[0]] + tail && answers[1..][|part|..] == answers[|part| + 1..];
    }
  }

  /** A node that disconnects is no longer a next hop, and that is all. */
  lemma DisconnectedIsNoWay(a: Agent, e: Endpoint, d: Endpoint, hop: Endpoint)
    requires NodeOf(e) == e
    ensures var o := HandleEvent(a, PeerDisconnected(e));
            && o.Some? && o.value.remote == a.remote && o.value.local == a.local && o.value.clients == a.clients
            && (WayTo(o.value, d, hop) <==> WayTo(a, d, hop) && hop != e)
    ensures var o := HandleEvent(a, ClientDisconnected(e));
            && o.Some? && o.value.remote == a.remote && o.value.local == a.local
            && (d in o.value.clients <==> d in a.clients && d != e)
            && (WayTo(o.value, d, hop) <==> WayTo(a, d, hop))
  {
    hide NodeOf;
  }

  // ----- a new routing table

  lemma {:induction false} StayingStays(queue: seq<Ref>, l: Limits)
    ensures Staying(Staying(queue, l), l) == Staying(queue, l) && Going(Staying(queue, l), l) == []
  {
    hide Within, Divisible;
    if queue != [] {
      StayingStays(queue[1..], l);
      var rest := Staying(queue[1..], l);
      if !Within(queue[0].size, l) && !Divisible(queue[0], l) {
        assert ([queue[0]] + rest)[0] == queue[0] && ([queue[0]] + rest)[1..] == rest;
      } else {
        assert Staying(queue, l) == rest;
      }
    }
  }

  lemma StayingDistinct(queue: seq<Ref>, l: Limits)
    requires DistinctIds(queue)
    ensures DistinctIds(Staying(queue, l))
    decreases |queue|
  {
    hide Within, Divisible, IdOf;
    if queue != [] {
      var rest := queue[1..];
      assert forall i :: 0 <= i < |rest| ==> rest[i] == queue[i + 1];
      StayingDistinct(rest, l);
      forall r | r in Staying(rest, l)
        ensures IdOf(r) != IdOf(queue[0])
      {
        StayingFrom(rest, l, r);
        var i :| 0 <= i < |rest| && rest[i] == r;
        assert queue[i + 1] == r;
      }
    }
  }

  lemma {:induction false} StayingFrom(queue: seq<Ref>, l: Limits, r: Ref)
    requires r in Staying(queue, l)
    ensures r in queue
  {
    hide Within, Divisible;
    if r in Staying(queue[1..], l) {
      StayingFrom(queue[1..], l, r);
    }
  }

  /** Is node d among the nodes of the targets? */
  ghost predicate Named(order: seq<Endpoint>, d: Endpoint) {
    exists i :: 0 <= i < |order| && NodeOf(order[i]) == d
  }

  /** The queue of d and what is pending for it, once everything for the named nodes that fits has gone out. */
  ghost predicate Rerouted(a: Agent, lane: Lane, lane': Lane, order: seq<Endpoint>, d: Endpoint) {
    && (forall hop :: WayTo(a, d, hop) && Named(order, d) ==>
          && Entry(lane'.queues, d) == Staying(Entry(lane.queues, d), LimitsTo(a, d, hop))
          && Entry(lane'.pending, d) == Entry(lane.pending, d) + Going(Entry(lane.queues, d), LimitsTo(a, d, hop)))
    && (!Named(order, d) || (forall hop :: !WayTo(a, d, hop)) ==>
          Entry(lane'.queues, d) == Entry(lane.queues, d) && Entry(lane'.pending, d) == Entry(lane.pending, d))
  }

  /** What has to be cut on the way to d is among the requests, with the limit that binds. */
  ghost predicate CutsFor(a: Agent, queue: seq<Ref>, requests: seq<FragmentBundle>, d: Endpoint) {
    forall hop, r :: WayTo(a, d, hop) && r in queue && Divisible(r, LimitsTo(a, d, hop)) ==>
      exists n :: Binding(n, LimitsTo(a, d, hop)) && FragmentBundle(r, n) in requests
  }

  lemma {:induction false} CuttingAll(queue: seq<Ref>, l: Limits, n: nat, r: Ref)
    requires r in queue && Divisible(r, l)
    ensures FragmentBundle(r, n) in Cutting(queue, l, n)
  {
    hide Divisible;
    if r != queue[0] {
      assert r in queue[1..];
      CuttingAll(queue[1..], l, n, r);
    }
  }

  lemma SentCuts(a: Agent, lane: Lane, lane': Lane, d: Endpoint, hop: Endpoint)
    requires WayTo(a, d, hop) && SentTo(lane, lane', d, Entry(lane.queues, d), LimitsTo(a, d, hop))
    ensures CutsFor(a, Entry(lane.queues, d), lane'.requests, d) && lane.requests <= lane'.requests
  {
    hide Cutting, Going, Staying, Divisible, Entry;
    var l, queue := LimitsTo(a, d, hop), Entry(lane.queues, d);
    var n :| Keeps(n, l) && lane'.requests == lane.requests + Cutting(queue, l, n);
    forall h, r | WayTo(a, d, h) && r in queue && Divisible(r, LimitsTo(a, d, h))
      ensures exists k :: Binding(k, LimitsTo(a, d, h)) && FragmentBundle(r, k) in lane'.requests
    {
      CuttingAll(queue, l, n, r);
      DivisibleIsLimited(r, l, n);
      assert Binding(n, LimitsTo(a, d, h)) && FragmentBundle(r, n) in lane'.requests;
    }
  }

  lemma DivisibleIsLimited(r: Ref, l: Limits, n: nat)
    requires Divisible(r, l) && Keeps(n, l)
    ensures Binding(n, l)
  {
  }

  ghost predicate DistinctQueues(lane: Lane) {
    forall e :: DistinctIds(Entry(lane.queues, e))
  }

  /** One destination of a new table. */
  lemma RouteServes(a: Agent, target: Endpoint, answers: seq<Answer>)
    requires AllTaken(answers) && DistinctQueues(a.remote)
    ensures var o, d := DeliverRemote(a, target, answers), NodeOf(target);
            && AllTaken(o.1) && DistinctQueues(o.0.remote) && a.remote.requests <= o.0.remote.requests
            && Served(a, a.remote, o.0, d, Entry(a.remote.queues, d))
            && CutsFor(a, Entry(a.remote.queues, d), o.0.remote.requests, d)
  {
    hide DeliverRemote, NodeOf, DistinctIds, SentTo, Entry, WayTo, CutsFor;
    var d, o := NodeOf(target), DeliverRemote(a, target, answers);
    assert DistinctIds(Entry(a.remote.queues, d));
    Serves(a, target, answers);
    if hop :| WayTo(a, d, hop) {
      DeliverySends(a, target, hop, answers);
      SentCuts(a, a.remote, o.0.remote, d, hop);
      SentKeepsDistinct(a, o.0.remote, d, hop);
    } else {
      DeliveryWaits(a, target, answers);
      NoWayNoCuts(a, Entry(a.remote.queues, d), o.0.remote.requests, d);
    }
  }

  lemma NoWayNoCuts(a: Agent, queue: seq<Ref>, requests: seq<FragmentBundle>, d: Endpoint)
    requires forall hop :: !WayTo(a, d, hop)
    ensures CutsFor(a, queue, requests, d)
  {
  }

  lemma SentKeepsDistinct(a: Agent, lane': Lane, d: Endpoint, hop: Endpoint)
    requires WayTo(a, d, hop) && SentTo(a.remote, lane', d, Entry(a.remote.queues, d), LimitsTo(a, d, hop))
    requires DistinctQueues(a.remote)
    ensures DistinctQueues(lane')
  {
    hide DistinctIds, Staying, Going, Cutting, WayTo, Entry;
    assert DistinctIds(Entry(a.remote.queues, d));
    StayingDistinct(Entry(a.remote.queues, d), LimitsTo(a, d, hop));
    forall e
      ensures DistinctIds(Entry(lane'.queues, e))
    {
      assert DistinctIds(Entry(a.remote.queues, e));
    }
  }

  /** All destinations of a new table. */
  lemma {:induction false} RoutesServe(a: Agent, order: seq<Endpoint>, answers: seq<Answer>, d: Endpoint)
    requires AllTaken(answers) && DistinctQueues(a.remote)
    ensures var a' := DeliverAll(a, order, answers);
            && a' == a.(remote := a'.remote) && a.remote.requests <= a'.remote.requests
            && a'.remote.finished == a.remote.finished
            && Rerouted(a, a.remote, a'.remote, order, d)
            && (Named(order, d) ==> CutsFor(a, Entry(a.remote.queues, d), a'.remote.requests, d))
    decreases |order|
  {
    hide DeliverRemote, NodeOf, DistinctQueues, Served, WayTo, CutsFor, Rerouted;
    if order == [] {
      NoneNamed(a, d);
    } else {
      var (a1, answers1) := DeliverRemote(a, order[0], answers);
      RouteServes(a, order[0], answers);
      RoutesServe(a1, order[1..], answers1, d);
      var a' := DeliverAll(a1, order[1..], answers1);
      var d0 := NodeOf(order[0]);
      ServedRest(a, a.remote, a1, d0, Entry(a.remote.queues, d0));
      ServedFinished(a, a1, d0);
      NamedStep(order, d);
      ReroutedStep(a, a1, a', order, d);
      if Named(order, d) {
        CutsStep(a, a1, a', order, d);
      }
    }
  }

  lemma NoneNamed(a: Agent, d: Endpoint)
    ensures !Named([], d) && Rerouted(a, a.remote, a.remote, [], d)
  {
  }

  lemma ServedFinished(a: Agent, a1: Agent, d: Endpoint)
    requires Served(a, a.remote, a1, d, Entry(a.remote.queues, d))
    ensures a1.remote.finished == a.remote.finished
  {
    hide WayTo, OnlyAt, Staying, Going, Cutting;
    if hop :| WayTo(a, d, hop) {
      assert SentTo(a.remote, a1.remote, d, Entry(a.remote.queues, d), LimitsTo(a, d, hop));
    }
  }

  lemma NamedStep(order: seq<Endpoint>, d: Endpoint)
    requires order != []
    ensures Named(order, d) <==> NodeOf(order[0]) == d || Named(order[1..], d)
  {
    hide NodeOf;
    assert forall i :: 0 < i < |order| ==> order[i] == order[1..][i - 1];
    if Named(order[1..], d) {
      var i :| 0 <= i < |order[1..]| && NodeOf(order[1..][i]) == d;
      assert NodeOf(order[i + 1]) == d;
    }
    if Named(order, d) && NodeOf(order[0]) != d {
      var i :| 0 <= i < |order| && NodeOf(order[i]) == d;
      assert NodeOf(order[1..][i - 1]) == d;
    }
  }

  /** The node at hand, and another one. */
  lemma ServedAt(a: Agent, a1: Agent, d0: Endpoint, d: Endpoint)
    requires Served(a, a.remote, a1, d0, Entry(a.remote.queues, d0))
    ensures d != d0 || (forall hop :: !WayTo(a, d, hop)) ==>
              Entry(a1.remote.queues, d) == Entry(a.remote.queues, d) && Entry(a1.remote.pending, d) == Entry(a.remote.pending, d)
    ensures forall hop :: WayTo(a, d, hop) && d == d0 ==>
              && Entry(a1.remote.queues, d) == Staying(Entry(a.remote.queues, d), LimitsTo(a, d, hop))
              && Entry(a1.remote.pending, d)
                 == Entry(a.remote.pending, d) + Going(Entry(a.remote.queues, d), LimitsTo(a, d, hop))
    ensures forall e, hop :: WayTo(a1, e, hop) <==> WayTo(a, e, hop)
  {
    hide Staying, Going, Cutting, Keeps;
    if hop :| WayTo(a, d0, hop) {
      assert SentTo(a.remote, a1.remote, d0, Entry(a.remote.queues, d0), LimitsTo(a, d0, hop));
    }
  }

  lemma ReroutedStep(a: Agent, a1: Agent, a': Agent, order: seq<Endpoint>, d: Endpoint)
    requires order != [] && Rerouted(a1, a1.remote, a'.remote, order[1..], d)
    requires Served(a, a.remote, a1, NodeOf(order[0]), Entry(a.remote.queues, NodeOf(order[0])))
    requires Named(order, d) <==> NodeOf(order[0]) == d || Named(order[1..], d)
    ensures Rerouted(a, a.remote, a'.remote, order, d)
  {
    hide NodeOf, Served, Staying, Going, Named, WayTo;
    ServedRest(a, a.remote, a1, NodeOf(order[0]), Entry(a.remote.queues, NodeOf(order[0])));
    ServedAt(a, a1, NodeOf(order[0]), d);
    forall hop | WayTo(a, d, hop) && Named(order, d)
      ensures Entry(a'.remote.queues, d) == Staying(Entry(a.remote.queues, d), LimitsTo(a, d, hop))
      ensures Entry(a'.remote.pending, d)
              == Entry(a.remote.pending, d) + Going(Entry(a.remote.queues, d), LimitsTo(a, d, hop))
    {
      assert WayTo(a1, d, hop);
      var l, queue := LimitsTo(a, d, hop), Entry(a.remote.queues, d);
      assert LimitsTo(a1, d, hop) == l;
      StayingStays(queue, l);
      assert (Entry(a.remote.pending, d) + Going(queue, l)) + [] == Entry(a.remote.pending, d) + Going(queue, l);
    }
  }

  lemma CutsStep(a: Agent, a1: Agent, a': Agent, order: seq<Endpoint>, d: Endpoint)
    requires order != [] && Named(order, d) && a1.remote.requests <= a'.remote.requests
    requires Named(order, d) <==> NodeOf(order[0]) == d || Named(order[1..], d)
    requires Served(a, a.remote, a1, NodeOf(order[0]), Entry(a.remote.queues, NodeOf(order[0])))
    requires NodeOf(order[0]) == d ==> CutsFor(a, Entry(a.remote.queues, d), a1.remote.requests, d)
    requires Named(order[1..], d) ==> CutsFor(a1, Entry(a1.remote.queues, d), a'.remote.requests, d)
    ensures CutsFor(a, Entry(a.remote.queues, d), a'.remote.requests, d)
  {
    hide NodeOf, Served, Staying, Going, Named, WayTo, Divisible, Binding;
    ServedRest(a, a.remote, a1, NodeOf(order[0]), Entry(a.remote.queues, NodeOf(order[0])));
    ServedAt(a, a1, NodeOf(order[0]), d);
    if NodeOf(order[0]) == d {
      assert forall f :: f in a1.remote.requests ==> f in a'.remote.requests;
    } else {
      assert forall hop :: WayTo(a, d, hop) ==> WayTo(a1, d, hop) && LimitsTo(a1, d, hop) == LimitsTo(a, d, hop);
    }
  }

  /** A new routing table: for every node it names and to which there now is a way, what fits goes out in order, what has
      to be cut is requested with the limit that binds, and the rest stays; all other queues are as before. */
  lemma NewRoutesServe(a: Agent, routes: map<Endpoint, NextHop>, order: seq<Endpoint>, answers: seq<Answer>, d: Endpoint)
    requires AllTaken(answers) && DistinctQueues(a.remote)
    ensures var a1, o := a.(routes := routes), HandleEvent(a, RoutesUpdated(routes, order, answers));
            && o.Some? && o.value == a1.(remote := o.value.remote) && o.value.remote.finished == a.remote.finished
            && Rerouted(a1, a.remote, o.value.remote, order, d)
            && (Named(order, d) ==> CutsFor(a1, Entry(a.remote.queues, d), o.value.remote.requests, d))
  {
    hide DeliverAll, Rerouted, CutsFor, DistinctQueues, Named;
    RoutesServe(a.(routes := routes), order, answers, d);
  }
}
