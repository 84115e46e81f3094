/** The bundle protocol agent: queues of bundles for clients and for other nodes, the forwarding loop, and the events
    that drive them.

    A `try_send` is answered by an oracle, which the events carry; the messages to other agents are recorded. */
module ProtocolAgent {
  import opened Bytes
  import opened Bundle
  import opened Storage

  /** What `id_from_pb` prints, component by component. */
  datatype Id = Id(source: Endpoint, creationTime: u64, sequenceNumber: u64, offset: u64, size: nat)

  function IdOf(r: Ref): Id {
    var p := r.primary;
    Id(p.source, p.creationTime, p.sequenceNumber, if p.fragmentOffset.Some? then p.fragmentOffset.value else 0, r.size)
  }

  const SLASH: u8 := 0x2F

  /** The bytes before the first slash. */
  function BeforeSlash(s: bytes): (r: bytes)
    ensures SLASH !in r && r <= s && (|r| < |s| ==> s[|r|] == SLASH)
  {
    if s == [] || s[0] == SLASH then [] else [s[0]] + BeforeSlash(s[1..])
  }

  /** `get_node_endpoint`: the node part of an endpoint. */
  function NodeOf(e: Endpoint): Endpoint {
    Endpoint([SLASH, SLASH] + BeforeSlash(if |e.uri| >= 2 then e.uri[2..] else []))
  }

  lemma {:induction false} BeforeSlashAll(s: bytes)
    requires SLASH !in s
    ensures BeforeSlash(s) == s
  {
    if s != [] {
      BeforeSlashAll(s[1..]);
      assert s == [s[0]] + s[1..];
    }
  }

  lemma NodeOfNode(e: Endpoint)
    ensures NodeOf(NodeOf(e)) == NodeOf(e)
  {
    var name := BeforeSlash(if |e.uri| >= 2 then e.uri[2..] else []);
    assert ([SLASH, SLASH] + name)[2..] == name;
    BeforeSlashAll(name);
  }

  lemma {:induction false} BeforeFirstSlash(name: bytes, path: bytes)
    requires SLASH !in name
    ensures BeforeSlash(name + [SLASH] + path) == name
  {
    var s := name + [SLASH] + path;
    if name != [] {
      BeforeFirstSlash(name[1..], path);
      assert s[0] == name[0] && s[1..] == name[1..] + [SLASH] + path;
      assert name == [name[0]] + name[1..];
    }
  }

  /** The node of "//name/path" is "//name". */
  lemma NodeOfService(name: bytes, path: bytes)
    requires SLASH !in name
    ensures NodeOf(Endpoint([SLASH, SLASH] + (name + [SLASH] + path))) == Endpoint([SLASH, SLASH] + name)
  {
    var s := name + [SLASH] + path;
    assert ([SLASH, SLASH] + s)[2..] == s;
    BeforeFirstSlash(name, path);
  }

  // ----- the delivery loop

  /** The answer to a `try_send`. */
  datatype Answer = Taken | Full | Closed

  datatype FragmentBundle = FragmentBundle(bundle: Ref, targetSize: nat)

  /** What the loop leaves in the queue, sends, and asks to have fragmented, and how it ends. */
  datatype Delivery = Delivery(queue: seq<Ref>, sent: seq<Ref>, requests: seq<FragmentBundle>, end: Answer,
                               answers: seq<Answer>)

  function NextAnswer(answers: seq<Answer>): Answer {
    if answers == [] then Taken else answers[0]
  }

  function LaterAnswers(answers: seq<Answer>): seq<Answer> {
    if answers == [] then [] else answers[1..]
  }

  predicate TooLarge(r: Ref, maxSize: Option<nat>)
    ensures TooLarge(r, maxSize) ==> maxSize.Some?
  {
    maxSize.Some? && r.size > maxSize.value
  }

  predicate Unfragmentable(r: Ref, maxSize: nat) {
    r.primary.flags.mustNotFragment || (r.minSize.Some? && r.minSize.value > maxSize)
  }

  /** Entries whose id has not been visited: what the loop still has to do. */
  function Unvisited(queue: seq<Ref>, visited: set<Id>): nat {
    if queue == [] then 0 else (if IdOf(queue[0]) in visited then 0 else 1) + Unvisited(queue[1..], visited)
  }

  lemma {:induction false} UnvisitedAppend(queue: seq<Ref>, r: Ref, visited: set<Id>)
    ensures Unvisited(queue + [r], visited) == Unvisited(queue, visited) + if IdOf(r) in visited then 0 else 1
  {
    if queue == [] {
      assert queue + [r] == [r];
    } else {
      assert (queue + [r])[1..] == queue[1..] + [r];
      UnvisitedAppend(queue[1..], r, visited);
    }
  }

  lemma {:induction false} UnvisitedMore(queue: seq<Ref>, visited: set<Id>, id: Id)
    ensures Unvisited(queue, visited + {id}) <= Unvisited(queue, visited)
  {
    if queue != [] {
      UnvisitedMore(queue[1..], visited, id);
    }
  }

  /** Putting an entry to the back and marking it visited is progress. */
  lemma RotationIsProgress(queue: seq<Ref>, visited: set<Id>)
    requires queue != [] && IdOf(queue[0]) !in visited
    ensures Unvisited(queue[1..] + [queue[0]], visited + {IdOf(queue[0])}) < Unvisited(queue, visited)
  {
    UnvisitedAppend(queue[1..], queue[0], visited + {IdOf(queue[0])});
    UnvisitedMore(queue[1..], visited, IdOf(queue[0]));
  }

  /** The loop of `deliver_remote_bundles`. */
  function Loop(queue: seq<Ref>, visited: set<Id>, maxSize: Option<nat>, answers: seq<Answer>): Delivery
    decreases Unvisited(queue, visited)
  {
    if queue == [] || IdOf(queue[0]) in visited then Delivery(queue, [], [], Taken, answers)
    else
      var b, rest := queue[0], queue[1..];
      if TooLarge(b, maxSize) then
        if Unfragmentable(b, maxSize.value) then
          RotationIsProgress(queue, visited);
          Loop(rest + [b], visited + {IdOf(b)}, maxSize, answers)
        else
          var d := Loop(rest, visited, maxSize, answers);
          d.(requests := [FragmentBundle(b, maxSize.value)] + d.requests)
      else
        match NextAnswer(answers)
        case Taken =>
          var d := Loop(rest, visited, maxSize, LaterAnswers(answers));
          d.(sent := [b] + d.sent)
        case end => Delivery(rest + [b], [], [], end, LaterAnswers(answers))
  }

  /** The loop over a queue. */
  method DeliverQueue(initial: seq<Ref>, maxSize: Option<nat>, oracle: seq<Answer>) returns (d: Delivery)
    ensures d == Loop(initial, {}, maxSize, oracle)
  {
    var queue, answers, visited := initial, oracle, {};
    var sent, requests := [], [];
    while queue != []
      invariant var rest := Loop(queue, visited, maxSize, answers);
                Loop(initial, {}, maxSize, oracle)
                == rest.(sent := sent + rest.sent, requests := requests + rest.requests)
      decreases Unvisited(queue, visited)
    {
      var b := queue[0];
      if IdOf(b) in visited {
        break;
      }
      if TooLarge(b, maxSize) {
        if Unfragmentable(b, maxSize.value) {
          RotationIsProgress(queue, visited);
          visited := visited + {IdOf(b)};
          queue := queue[1..] + [b];
        } else {
          ghost var tail := Loop(queue[1..], visited, maxSize, answers).requests;
          var request := FragmentBundle(b, maxSize.value);
          assert requests + ([request] + tail) == requests + [request] + tail;
          requests := requests + [request];
          queue := queue[1..];
        }
        continue;
      }
      var answer := NextAnswer(answers);
      answers := LaterAnswers(answers);
      if answer != Taken {
        assert sent + [] == sent && requests + [] == requests;
        return Delivery(queue[1..] + [b], sent, requests, answer, answers);
      }
      ghost var tail := Loop(queue[1..], visited, maxSize, answers).sent;
      assert sent + ([b] + tail) == sent + [b] + tail;
      sent := sent + [b];
      queue := queue[1..];
    }
    assert sent + [] == sent && requests + [] == requests;
    d := Delivery(queue, sent, requests, Taken, answers);
  }

  /** The loop of `deliver_local_bundles`; `None` is the panic on a fragment. */
  function ClientLoop(queue: seq<Ref>, answers: seq<Answer>): Option<Delivery>
    decreases |queue|
  {
    if queue == [] then Some(Delivery([], [], [], Taken, answers))
    else
      var b, rest := queue[0], queue[1..];
      if b.primary.fragmentOffset.Some? then None
      else match NextAnswer(answers)
           case Taken =>
             (match ClientLoop(rest, LaterAnswers(answers))
              case None => None
              case Some(d) => Some(d.(sent := [b] + d.sent)))
           case end => Some(Delivery(rest + [b], [], [], end, LaterAnswers(answers)))
  }

  method DeliverClientQueue(initial: seq<Ref>, oracle: seq<Answer>) returns (d: Delivery)
    requires ClientLoop(initial, oracle).Some?
    ensures ClientLoop(initial, oracle) == Some(d)
  {
    var queue, answers, sent := initial, oracle, [];
    assert sent + ClientLoop(queue, answers).value.sent == ClientLoop(queue, answers).value.sent;
    while queue != []
      invariant ClientLoop(queue, answers).Some?
      invariant var rest := ClientLoop(queue, answers).value;
                ClientLoop(initial, oracle) == Some(rest.(sent := sent + rest.sent))
      decreases |queue|
    {
      var b := queue[0];
      var answer := NextAnswer(answers);
      answers := LaterAnswers(answers);
      if answer != Taken {
        assert sent + [] == sent;
        return Delivery(queue[1..] + [b], sent, [], answer, answers);
      }
      ghost var tail := ClientLoop(queue[1..], answers).value.sent;
      assert sent + ([b] + tail) == sent + [b] + tail;
      sent := sent + [b];
      queue := queue[1..];
    }
    assert sent + [] == sent;
    d := Delivery(queue, sent, [], Taken, answers);
  }

  predicate NoFragments(queue: seq<Ref>) {
    forall i :: 0 <= i < |queue| ==> queue[i].primary.fragmentOffset.None?
  }

  /** Without fragments the loop for clients is the loop for nodes without a size limit. */
  lemma {:induction false} ClientLoopIsLoop(queue: seq<Ref>, answers: seq<Answer>)
    requires NoFragments(queue)
    ensures ClientLoop(queue, answers) == Some(Loop(queue, {}, None, answers))
    decreases |queue|
  {
    if queue != [] {
      ClientLoopIsLoop(queue[1..], LaterAnswers(answers));
    }
  }

  // ----- what the loop does to a queue

  /** Fitting bundles, in order. */
  function Fitting(queue: seq<Ref>, maxSize: Option<nat>): seq<Ref> {
    if queue == [] then [] else (if TooLarge(queue[0], maxSize) then [] else [queue[0]]) + Fitting(queue[1..], maxSize)
  }

  /** Requests for the oversized bundles that can be fragmented, in order. */
  function Requested(queue: seq<Ref>, maxSize: Option<nat>): seq<FragmentBundle> {
    if queue == [] then []
    else (if TooLarge(queue[0], maxSize) && !Unfragmentable(queue[0], maxSize.value)
          then [FragmentBundle(queue[0], maxSize.value)] else [])
         + Requested(queue[1..], maxSize)
  }

  /** Oversized bundles that cannot be fragmented, in order. */
  function Stuck(queue: seq<Ref>, maxSize: Option<nat>): seq<Ref> {
    if queue == [] then []
    else (if TooLarge(queue[0], maxSize) && Unfragmentable(queue[0], maxSize.value) then [queue[0]] else [])
         + Stuck(queue[1..], maxSize)
  }

  function Ids(queue: seq<Ref>): set<Id> {
    set r | r in queue :: IdOf(r)
  }

  predicate DistinctIds(queue: seq<Ref>) {
    forall i, j :: 0 <= i < j < |queue| ==> IdOf(queue[i]) != IdOf(queue[j])
  }

  lemma HeadIsNew(rest: seq<Ref>, done: seq<Ref>)
    requires rest != [] && DistinctIds(rest + done)
    ensures IdOf(rest[0]) !in Ids(done) && DistinctIds(rest[1..] + done)
  {
    hide IdOf;
    var q := rest + done;
    forall r | r in done
      ensures IdOf(r) != IdOf(rest[0])
    {
      var k :| 0 <= k < |done| && done[k] == r;
      assert q[|rest| + k] == r && q[0] == rest[0];
    }
    assert forall i :: 0 <= i < |q| - 1 ==> (rest[1..] + done)[i] == q[i + 1];
  }

  lemma Rotated(rest: seq<Ref>, done: seq<Ref>)
    requires rest != [] && DistinctIds(rest + done)
    ensures DistinctIds(rest[1..] + (done + [rest[0]])) && Ids(done + [rest[0]]) == Ids(done) + {IdOf(rest[0])}
  {
    hide IdOf;
    var q, q' := rest + done, rest[1..] + (done + [rest[0]]);
    assert forall i :: 0 <= i < |q| - 1 ==> q'[i] == q[i + 1];
    assert q'[|q| - 1] == q[0];
  }

  /** One round of the loop. */
  lemma LoopStep(queue: seq<Ref>, visited: set<Id>, maxSize: Option<nat>, answers: seq<Answer>)
    requires queue != [] && IdOf(queue[0]) !in visited
    ensures var b, rest, later := queue[0], queue[1..], LaterAnswers(answers);
            Loop(queue, visited, maxSize, answers)
            == if TooLarge(b, maxSize) then
                 if Unfragmentable(b, maxSize.value) then Loop(rest + [b], visited + {IdOf(b)}, maxSize, answers)
                 else var d := Loop(rest, visited, maxSize, answers);
                      d.(requests := [FragmentBundle(b, maxSize.value)] + d.requests)
               else if NextAnswer(answers).Taken? then
                 var d := Loop(rest, visited, maxSize, later); d.(sent := [b] + d.sent)
               else Delivery(rest + [b], [], [], NextAnswer(answers), later)
  {
    hide TooLarge, Unfragmentable, IdOf, Unvisited;
  }

  lemma PartsStep(rest: seq<Ref>, maxSize: Option<nat>)
    requires rest != []
    ensures var b, tail := rest[0], rest[1..];
            if !TooLarge(b, maxSize) then
              Fitting(rest, maxSize) == [b] + Fitting(tail, maxSize)
              && Requested(rest, maxSize) == Requested(tail, maxSize) && Stuck(rest, maxSize) == Stuck(tail, maxSize)
            else if Unfragmentable(b, maxSize.value) then
              Fitting(rest, maxSize) == Fitting(tail, maxSize)
              && Requested(rest, maxSize) == Requested(tail, maxSize) && Stuck(rest, maxSize) == [b] + Stuck(tail, maxSize)
            else
              Fitting(rest, maxSize) == Fitting(tail, maxSize) && Stuck(rest, maxSize) == Stuck(tail, maxSize)
              && Requested(rest, maxSize) == [FragmentBundle(b, maxSize.value)] + Requested(tail, maxSize)
  {
    hide TooLarge, Unfragmentable;
  }

  /** The loop with `done` already rotated to the back. */
  lemma {:induction false} LoopPartitions(rest: seq<Ref>, done: seq<Ref>, maxSize: Option<nat>)
    requires DistinctIds(rest + done)
    ensures Loop(rest + done, Ids(done), maxSize, [])
            == Delivery(done + Stuck(rest, maxSize), Fitting(rest, maxSize), Requested(rest, maxSize), Taken, [])
    decreases |rest|
  {
    hide TooLarge, Unfragmentable, IdOf, DistinctIds, Unvisited;
    var queue := rest + done;
    if rest == [] {
      assert queue == done && done + [] == done;
    } else {
      hide Ids, Loop, Fitting, Requested, Stuck;
      var b := rest[0];
      assert queue[0] == b && queue[1..] == rest[1..] + done;
      HeadIsNew(rest, done);
      LoopStep(queue, Ids(done), maxSize, []);
      PartsStep(rest, maxSize);
      if TooLarge(b, maxSize) && Unfragmentable(b, maxSize.value) {
        var done' := done + [b];
        Rotated(rest, done);
        assert queue[1..] + [b] == rest[1..] + done';
        LoopPartitions(rest[1..], done', maxSize);
        assert done' + Stuck(rest[1..], maxSize) == done + ([b] + Stuck(rest[1..], maxSize));
      } else {
        LoopPartitions(rest[1..], done, maxSize);
      }
    }
  }

  /** With distinct ids and every send accepted, one run of the loop partitions the queue in order: fitting bundles are
      sent, oversized fragmentable ones requested, and the queue keeps exactly the oversized unfragmentable ones. */
  lemma ForwardingPartitions(queue: seq<Ref>, maxSize: Option<nat>)
    requires DistinctIds(queue)
    ensures Loop(queue, {}, maxSize, [])
            == Delivery(Stuck(queue, maxSize), Fitting(queue, maxSize), Requested(queue, maxSize), Taken, [])
  {
    hide Loop;
    assert queue + [] == queue && Ids([]) == {} && [] + Stuck(queue, maxSize) == Stuck(queue, maxSize);
    LoopPartitions(queue, [], maxSize);
  }

  // ----- the agent

  datatype NextHop = NextHop(nextHop: Endpoint, maxSize: Option<nat>)

  /** One kind of delivery: what is queued and what has been sent but not answered, per destination; and the messages
      to the storage agent, for fragmentation and for bundles that are done. */
  datatype Lane = Lane(queues: map<Endpoint, seq<Ref>>, pending: map<Endpoint, seq<Ref>>,
                       requests: seq<FragmentBundle>, finished: seq<Ref>)

  /** Delivery to clients and to nodes; who is connected; and the routing table. */
  datatype Agent = Agent(local: Lane, remote: Lane, clients: set<Endpoint>, peers: set<Endpoint>,
                         routes: map<Endpoint, NextHop>)

  function Entry(m: map<Endpoint, seq<Ref>>, k: Endpoint): seq<Ref> {
    if k in m then m[k] else []
  }

  function PushBack(lane: Lane, k: Endpoint, r: Ref): Lane {
    lane.(queues := lane.queues[k := Entry(lane.queues, k) + [r]])
  }

  function PushFront(lane: Lane, k: Endpoint, r: Ref): Lane {
    lane.(queues := lane.queues[k := [r] + Entry(lane.queues, k)])
  }

  /** `retain`: everything but what has this primary block. */
  function Retain(s: seq<Ref>, primary: PrimaryBlock): seq<Ref> {
    if s == [] then [] else (if s[0].primary == primary then [] else [s[0]]) + Retain(s[1..], primary)
  }

  function Dismiss(lane: Lane, k: Endpoint, r: Ref): Lane {
    if k in lane.pending then lane.(pending := lane.pending[k := Retain(lane.pending[k], r.primary)]) else lane
  }

  function Finish(lane: Lane, k: Endpoint, r: Ref): Lane {
    var l := Dismiss(lane, k, r);
    l.(finished := l.finished + [r])
  }

  /** The lane after a run of the loop for destination k. */
  function Applied(lane: Lane, k: Endpoint, d: Delivery): Lane {
    if k !in lane.queues then lane
    else lane.(queues := lane.queues[k := d.queue],
               pending := if d.sent == [] then lane.pending else lane.pending[k := Entry(lane.pending, k) + d.sent],
               requests := lane.requests + d.requests)
  }

  /** `deliver_local_bundles`; `None` is a panic. */
  function DeliverLocal(a: Agent, destination: Endpoint, answers: seq<Answer>): Option<(Agent, seq<Answer>)> {
    if destination !in a.clients then Some((a, answers)) else
    match ClientLoop(Entry(a.local.queues, destination), answers)
    case None => None
    case Some(d) =>
      Some((a.(local := Applied(a.local, destination, d),
               clients := if d.end == Closed then a.clients - {destination} else a.clients), d.answers))
  }

  function SmallerSize(a: Option<nat>, b: Option<nat>): Option<nat> {
    if a.Some? && b.Some? then Some(Min(a.value, b.value)) else if a.Some? then a else b
  }

  /** Is there a way to send to node d now? */
  predicate Reachable(a: Agent, d: Endpoint) {
    && d in a.routes && a.routes[d].nextHop in a.peers && a.routes[d].nextHop in a.routes
    && a.routes[a.routes[d].nextHop].nextHop == a.routes[d].nextHop
  }

  /** `deliver_remote_bundles`.  A closed connection is looked up by the destination, not by the next hop. */
  function DeliverRemote(a: Agent, destination: Endpoint, answers: seq<Answer>): (Agent, seq<Answer>) {
    var d := NodeOf(destination);
    if !Reachable(a, d) then (a, answers) else
    var route := a.routes[d];
    var maxSize := SmallerSize(route.maxSize, a.routes[route.nextHop].maxSize);
    var r := Loop(Entry(a.remote.queues, d), {}, maxSize, answers);
    (a.(remote := Applied(a.remote, d, r), peers := if r.end == Closed then a.peers - {d} else a.peers), r.answers)
  }

  function DeliverAll(a: Agent, order: seq<Endpoint>, answers: seq<Answer>): Agent
    decreases |order|
  {
    if order == [] then a else
    var (a', answers') := DeliverRemote(a, order[0], answers);
    DeliverAll(a', order[1..], answers')
  }

  /** The messages the agent handles.  `order` is the order in which an update of the routing table goes through the
      new table. */
  datatype AgentEvent =
    | Updated(bundle: Ref, answers: seq<Answer>)
    | BundleDelivered(endpoint: Endpoint, bundle: Ref, answers: seq<Answer>)
    | DeliveryFailed(endpoint: Endpoint, bundle: Ref)
    | ClientConnected(endpoint: Endpoint, answers: seq<Answer>)
    | ClientDisconnected(endpoint: Endpoint)
    | PeerConnected(endpoint: Endpoint, answers: seq<Answer>)
    | PeerDisconnected(endpoint: Endpoint)
    | BundleForwarded(endpoint: Endpoint, bundle: Ref, answers: seq<Answer>)
    | ForwardingFailed(endpoint: Endpoint, bundle: Ref)
    | RoutesUpdated(routes: map<Endpoint, NextHop>, order: seq<Endpoint>, answers: seq<Answer>)

  function AgentOf(o: Option<(Agent, seq<Answer>)>): Option<Agent> {
    if o.Some? then Some(o.value.0) else None
  }

  /** `None` is a panic: a fragment in the queue of a client, or a peer that is not a node. */
  function HandleEvent(a: Agent, ev: AgentEvent): Option<Agent> {
    match ev
    case Updated(r, answers) =>
      var destination := r.primary.destination;
      if r.state.DeliveryQueued? then
        AgentOf(DeliverLocal(a.(local := PushBack(a.local, destination, r)), destination, answers))
      else if r.state.ForwardingQueued? then
        Some(DeliverRemote(a.(remote := PushBack(a.remote, NodeOf(destination), r)), destination, answers).0)
      else Some(a)
    case BundleDelivered(e, r, answers) => AgentOf(DeliverLocal(a.(local := Finish(a.local, e, r)), e, answers))
    case DeliveryFailed(e, r) => Some(a.(local := PushFront(Dismiss(a.local, e, r), e, r)))
    case ClientConnected(e, answers) => AgentOf(DeliverLocal(a.(clients := a.clients + {e}), e, answers))
    case ClientDisconnected(e) => Some(a.(clients := a.clients - {e}))
    case PeerConnected(e, answers) =>
      if NodeOf(e) != e then None else Some(DeliverRemote(a.(peers := a.peers + {e}), e, answers).0)
    case PeerDisconnected(e) => if NodeOf(e) != e then None else Some(a.(peers := a.peers - {e}))
    case BundleForwarded(e, r, answers) =>
      Some(DeliverRemote(a.(remote := Finish(a.remote, NodeOf(e), r)), NodeOf(e), answers).0)
    case ForwardingFailed(e, r) => Some(a.(remote := PushFront(Dismiss(a.remote, NodeOf(e), r), NodeOf(e), r)))
    case RoutesUpdated(routes, order, answers) => Some(DeliverAll(a.(routes := routes), order, answers))
  }

  // ----- the object

  class ProtocolDaemon {
    var localBundles: map<Endpoint, seq<Ref>>
    var pendingLocalDelivery: map<Endpoint, seq<Ref>>
    var remoteBundles: map<Endpoint, seq<Ref>>
    var pendingForwarding: map<Endpoint, seq<Ref>>
    var localConnections: set<Endpoint>
    var remoteConnections: set<Endpoint>
    var remoteRoutes: map<Endpoint, NextHop>
    var fragmentRequests: seq<FragmentBundle>
    var delivered: seq<Ref>
    var forwarded: seq<Ref>

    function Value(): Agent
      reads this
    {
      Agent(Lane(localBundles, pendingLocalDelivery, [], delivered),
            Lane(remoteBundles, pendingForwarding, fragmentRequests, forwarded),
            localConnections, remoteConnections, remoteRoutes)
    }

    constructor ()
      ensures Value() == Agent(Lane(map[], map[], [], []), Lane(map[], map[], [], []), {}, {}, map[])
    {
      localBundles, pendingLocalDelivery, remoteBundles, pendingForwarding := map[], map[], map[], map[];
      localConnections, remoteConnections, remoteRoutes := {}, {}, map[];
      fragmentRequests, delivered, forwarded := [], [], [];
    }

    method DeliverLocalBundles(destination: Endpoint, answers: seq<Answer>) returns (left: seq<Answer>)
      requires DeliverLocal(Value(), destination, answers).Some?
      modifies this
      ensures DeliverLocal(old(Value()), destination, answers) == Some((Value(), left))
    {
      hide ClientLoop;
      left := answers;
      if destination !in localConnections {
        return;
      }
      NothingQueued(answers);
      if destination in localBundles {
        var d := DeliverClientQueue(localBundles[destination], answers);
        NoRequests(localBundles[destination], answers);
        assert Value().local.requests + d.requests == [];
        localBundles := localBundles[destination := d.queue];
        if d.sent != [] {
          pendingLocalDelivery := pendingLocalDelivery[destination := Entry(pendingLocalDelivery, destination) + d.sent];
        }
        left := d.answers;
        if d.end == Closed {
          localConnections := localConnections - {destination};
        }
      }
    }

    method DeliverRemoteBundles(destination: Endpoint, answers: seq<Answer>) returns (left: seq<Answer>)
      modifies this
      ensures (Value(), left) == DeliverRemote(old(Value()), destination, answers)
    {
      hide Loop, NodeOf;
      left := answers;
      var node := NodeOf(destination);
      if node !in remoteRoutes {
        return;
      }
      var route := remoteRoutes[node];
      if route.nextHop !in remoteConnections || route.nextHop !in remoteRoutes {
        return;
      }
      var hop := remoteRoutes[route.nextHop];
      if route.nextHop != hop.nextHop {
        return;
      }
      var maxSize := SmallerSize(route.maxSize, hop.maxSize);
      NothingToDo(maxSize, answers);
      if node in remoteBundles {
        var d := DeliverQueue(remoteBundles[node], maxSize, answers);
        remoteBundles := remoteBundles[node := d.queue];
        if d.sent != [] {
          pendingForwarding := pendingForwarding[node := Entry(pendingForwarding, node) + d.sent];
        }
        fragmentRequests := fragmentRequests + d.requests;
        left := d.answers;
        if d.end == Closed {
          remoteConnections := remoteConnections - {node};
        }
      }
    }

    /** All event handlers. */
    method Handle(ev: AgentEvent)
      requires HandleEvent(Value(), ev).Some?
      modifies this
      ensures HandleEvent(old(Value()), ev) == Some(Value())
    {
      hide DeliverLocal, DeliverRemote, NodeOf, Retain;
      match ev {
        case Updated(r, answers) => HandleUpdate(r, answers);
        case BundleDelivered(e, r, answers) =>
          DismissLocal(e, r);
          delivered := delivered + [r];
          var _ := DeliverLocalBundles(e, answers);
        case DeliveryFailed(e, r) =>
          DismissLocal(e, r);
          localBundles := localBundles[e := [r] + Entry(localBundles, e)];
        case ClientConnected(e, answers) =>
          localConnections := localConnections + {e};
          var _ := DeliverLocalBundles(e, answers);
        case ClientDisconnected(e) => localConnections := localConnections - {e};
        case PeerConnected(e, answers) =>
          remoteConnections := remoteConnections + {e};
          var _ := DeliverRemoteBundles(e, answers);
        case PeerDisconnected(e) => remoteConnections := remoteConnections - {e};
        case BundleForwarded(e, r, answers) =>
          DismissRemote(NodeOf(e), r);
          forwarded := forwarded + [r];
          var _ := DeliverRemoteBundles(NodeOf(e), answers);
        case ForwardingFailed(e, r) =>
          DismissRemote(NodeOf(e), r);
          remoteBundles := remoteBundles[NodeOf(e) := [r] + Entry(remoteBundles, NodeOf(e))];
        case RoutesUpdated(routes, order, answers) => UpdateRoutes(routes, order, answers);
      }
    }

    method HandleUpdate(r: Ref, answers: seq<Answer>)
      requires HandleEvent(Value(), Updated(r, answers)).Some?
      modifies this
      ensures HandleEvent(old(Value()), Updated(r, answers)) == Some(Value())
    {
      hide DeliverLocal, DeliverRemote, NodeOf;
      var destination := r.primary.destination;
      if r.state.DeliveryQueued? {
        localBundles := localBundles[destination := Entry(localBundles, destination) + [r]];
        var _ := DeliverLocalBundles(destination, answers);
      } else if r.state.ForwardingQueued? {
        var node := NodeOf(destination);
        remoteBundles := remoteBundles[node := Entry(remoteBundles, node) + [r]];
        var _ := DeliverRemoteBundles(destination, answers);
      }
    }

    method DismissLocal(e: Endpoint, r: Ref)
      modifies this`pendingLocalDelivery
      ensures Value() == old(Value()).(local := Dismiss(old(Value()).local, e, r))
    {
      if e in pendingLocalDelivery {
        pendingLocalDelivery := pendingLocalDelivery[e := Retain(pendingLocalDelivery[e], r.primary)];
      }
    }

    method DismissRemote(node: Endpoint, r: Ref)
      modifies this`pendingForwarding
      ensures Value() == old(Value()).(remote := Dismiss(old(Value()).remote, node, r))
    {
      if node in pendingForwarding {
        pendingForwarding := pendingForwarding[node := Retain(pendingForwarding[node], r.primary)];
      }
    }

    method UpdateRoutes(routes: map<Endpoint, NextHop>, order: seq<Endpoint>, answers: seq<Answer>)
      modifies this
      ensures Value() == DeliverAll(old(Value()).(routes := routes), order, answers)
    {
      hide DeliverRemote;
      remoteRoutes := routes;
      ghost var start := Value();
      var left := answers;
      for i := 0 to |order|
        invariant DeliverAll(start, order, answers) == DeliverAll(Value(), order[i..], left)
      {
        assert order[i..][0] == order[i] && order[i..][1..] == order[i + 1..];
        left := DeliverRemoteBundles(order[i], left);
      }
    }
  }

  lemma NothingToDo(maxSize: Option<nat>, answers: seq<Answer>)
    ensures Loop([], {}, maxSize, answers) == Delivery([], [], [], Taken, answers)
  {
  }

  lemma NothingQueued(answers: seq<Answer>)
    ensures ClientLoop([], answers) == Some(Delivery([], [], [], Taken, answers))
  {
  }

  /** Nothing for a client is fragmented. */
  lemma {:induction false} NoRequests(queue: seq<Ref>, answers: seq<Answer>)
    requires ClientLoop(queue, answers).Some?
    ensures ClientLoop(queue, answers).value.requests == []
    decreases |queue|
  {
    if queue != [] && NextAnswer(answers).Taken? {
      NoRequests(queue[1..], LaterAnswers(answers));
    }
  }
}
