/** The routing agent: known routes, and the table of preferred next hops it publishes to the protocol agent. */
module Routing {
  import opened Bytes
  import opened Bundle
  import opened ProtocolAgent

  datatype RouteType = Connected | Static

  /** What makes two routes to one target the same; the size limit does not. */
  datatype Via = Via(kind: RouteType, nextHop: Endpoint)

  /** The routes to each target, with their size limits. */
  type Routes = map<Endpoint, map<Via, Option<nat>>>

  datatype Change =
    | AddRoute(target: Endpoint, via: Via, maxSize: Option<nat>)
    | RemoveRoute(target: Endpoint, via: Via)

  function RoutesTo(routes: Routes, target: Endpoint): map<Via, Option<nat>> {
    if target in routes then routes[target] else map[]
  }

  /** Adding a route that is known already changes nothing, not even its size limit. */
  function Apply(routes: Routes, c: Change): Routes {
    var known := RoutesTo(routes, c.target);
    match c
    case AddRoute(t, via, maxSize) => routes[t := if via in known then known else known[via := maxSize]]
    case RemoveRoute(t, via) => routes[t := known - {via}]
  }

  /** Is an update sent? */
  predicate Changes(routes: Routes, c: Change) {
    if c.AddRoute? then c.via !in RoutesTo(routes, c.target) else c.via in RoutesTo(routes, c.target)
  }

  /** `get_connected_routes`: the targets that are connected. */
  ghost predicate IsConnected(routes: Routes, target: Endpoint) {
    exists via :: via in RoutesTo(routes, target) && via.kind.Connected?
  }

  ghost predicate Available(routes: Routes, via: Via) {
    via.kind.Connected? || IsConnected(routes, via.nextHop)
  }

  /** A sort by type may put this route to the target first; which of several of one type comes first is open. */
  ghost predicate MayBeFirst(routes: Routes, target: Endpoint, via: Via) {
    && via in RoutesTo(routes, target)
    && (via.kind.Static? ==> !IsConnected(routes, target))
  }

  type Table = map<Endpoint, NextHop>

  ghost predicate Chosen(routes: Routes, target: Endpoint, via: Via, hop: NextHop) {
    MayBeFirst(routes, target, via) && Available(routes, via) && hop == NextHop(via.nextHop, routes[target][via])
  }

  ghost predicate NotAvailable(routes: Routes, target: Endpoint, via: Via) {
    MayBeFirst(routes, target, via) && !Available(routes, via)
  }

  /** A table of the preferred routes: for each target the first route, if it is available. */
  ghost predicate IsTable(routes: Routes, table: Table) {
    && (forall t :: t in table ==> exists via :: Chosen(routes, t, via, table[t]))
    && (forall t :: t in routes && routes[t] != map[] && t !in table ==> exists via :: NotAvailable(routes, t, via))
  }

  // ----- the object

  class RoutingDaemon {
    var routes: Routes
    const lastRoutingTable: Option<Table>
    var published: seq<Table>

    constructor ()
      ensures routes == map[] && published == [] && lastRoutingTable == None
    {
      routes, published, lastRoutingTable := map[], [], None;
    }

    method ConnectedTargets() returns (targets: set<Endpoint>)
      ensures forall t :: t in targets <==> IsConnected(routes, t)
    {
      targets := {};
      var rest := routes.Keys;
      while rest != {}
        invariant rest <= routes.Keys
        invariant forall t :: t in targets <==> t !in rest && IsConnected(routes, t)
        decreases rest
      {
        var t :| t in rest;
        rest := rest - {t};
        if via :| via in routes[t] && via.kind.Connected? {
          assert via in RoutesTo(routes, t);
          targets := targets + {t};
        }
      }
    }

    /** The first route to a target in a sort by type. */
    method First(target: Endpoint) returns (via: Via)
      requires target in routes && routes[target] != map[]
      ensures MayBeFirst(routes, target, via)
    {
      if c :| c in routes[target] && c.kind.Connected? {
        via := c;
      } else {
        assert routes[target].Keys != {};
        via :| via in routes[target];
      }
    }

    method PreferredRoutes() returns (table: Table)
      ensures IsTable(routes, table)
    {
      hide MayBeFirst, IsConnected;
      var connected := ConnectedTargets();
      table := map[];
      var rest := routes.Keys;
      while rest != {}
        invariant rest <= routes.Keys && table.Keys <= routes.Keys && table.Keys !! rest
        invariant forall t :: t in table ==> exists via :: Chosen(routes, t, via, table[t])
        invariant forall t :: t in routes && routes[t] != map[] && t !in table && t !in rest ==>
                    exists via :: NotAvailable(routes, t, via)
        decreases rest
      {
        var t :| t in rest;
        rest := rest - {t};
        if routes[t] != map[] {
          var via := First(t);
          assert via in routes[t] by {
            FirstIsKnown(routes, t, via);
          }
          if via.kind.Connected? || via.nextHop in connected {
            table := table[t := NextHop(via.nextHop, routes[t][via])];
            assert Chosen(routes, t, via, table[t]);
          } else {
            assert NotAvailable(routes, t, via);
          }
        }
      }
    }

    method SendRouteUpdate()
      modifies this`published
      ensures published == old(published)
              || (|published| == |old(published)| + 1 && published[..|old(published)|] == old(published)
                  && IsTable(routes, published[|old(published)|]))
      ensures lastRoutingTable.None? ==> published != old(published)
    {
      var table := PreferredRoutes();
      if lastRoutingTable == Some(table) {
        return;
      }
      published := published + [table];
    }

    /** The handlers of `AddRoute` and `RemoveRoute`. */
    method Handle(c: Change)
      modifies this
      ensures routes == Apply(old(routes), c)
      ensures !Changes(old(routes), c) ==> published == old(published)
      ensures Changes(old(routes), c) && lastRoutingTable.None? ==> published != old(published)
      ensures published == old(published)
              || (|published| == |old(published)| + 1 && published[..|old(published)|] == old(published)
                  && IsTable(routes, published[|old(published)|]))
    {
      hide IsTable;
      var known := RoutesTo(routes, c.target);
      match c {
        case AddRoute(t, via, maxSize) =>
          routes := routes[t := if via in known then known else known[via := maxSize]];
          if via !in known {
            SendRouteUpdate();
          }
        case RemoveRoute(t, via) =>
          routes := routes[t := known - {via}];
          if via in known {
            SendRouteUpdate();
          }
      }
    }
  }

  lemma FirstIsKnown(routes: Routes, target: Endpoint, via: Via)
    requires MayBeFirst(routes, target, via)
    ensures target in routes && via in routes[target]
  {
  }

  // ----- closure

  /** A connected route leads to its target itself. */
  predicate Direct(c: Change) {
    c.AddRoute? && c.via.kind.Connected? ==> c.via.nextHop == c.target
  }

  ghost predicate AllDirect(routes: Routes) {
    forall t, via :: via in RoutesTo(routes, t) && via.kind.Connected? ==> via.nextHop == t
  }

  function RoutesAfter(routes: Routes, cs: seq<Change>): Routes
    decreases |cs|
  {
    if cs == [] then routes else RoutesAfter(Apply(routes, cs[0]), cs[1..])
  }

  lemma ApplyKeepsDirect(routes: Routes, c: Change)
    requires AllDirect(routes) && Direct(c)
    ensures AllDirect(Apply(routes, c))
  {
    var routes' := Apply(routes, c);
    forall t, via | via in RoutesTo(routes', t) && via.kind.Connected?
      ensures via.nextHop == t
    {
      if t == c.target && c.AddRoute? && via == c.via {
      } else {
        assert via in RoutesTo(routes, t);
      }
    }
  }

  lemma {:induction false} RunKeepsDirect(routes: Routes, cs: seq<Change>)
    requires AllDirect(routes) && forall i :: 0 <= i < |cs| ==> Direct(cs[i])
    ensures AllDirect(RoutesAfter(routes, cs))
    decreases |cs|
  {
    hide AllDirect, Apply;
    if cs != [] {
      ApplyKeepsDirect(routes, cs[0]);
      RunKeepsDirect(Apply(routes, cs[0]), cs[1..]);
    }
  }

  /** Every next hop in the table has an entry of its own that points to itself. */
  ghost predicate Closed(table: Table) {
    forall t :: t in table ==> table[t].nextHop in table && table[table[t].nextHop].nextHop == table[t].nextHop
  }

  /** A connected target is in every table, and leads to itself. */
  lemma ConnectedEntry(routes: Routes, table: Table, t: Endpoint)
    requires AllDirect(routes) && IsTable(routes, table) && IsConnected(routes, t)
    ensures t in table && table[t].nextHop == t
  {
    assert t in routes && routes[t] != map[];
    assert forall via :: !NotAvailable(routes, t, via);
    var via :| Chosen(routes, t, via, table[t]);
    assert via.kind.Connected?;
  }

  lemma TableIsClosed(routes: Routes, table: Table)
    requires AllDirect(routes) && IsTable(routes, table)
    ensures Closed(table)
  {
    hide AllDirect;
    forall t | t in table
      ensures table[t].nextHop in table && table[table[t].nextHop].nextHop == table[t].nextHop
    {
      var via :| Chosen(routes, t, via, table[t]);
      if via.kind.Connected? {
        assert IsConnected(routes, t);
        ConnectedEntry(routes, table, t);
      } else {
        ConnectedEntry(routes, table, via.nextHop);
      }
    }
  }

  /** Over every run of additions and removals in which connected routes lead to their target itself, every table that
      can be published is closed; so the protocol agent never meets a next hop that is not directly connected. */
  lemma RoutingTableClosure(cs: seq<Change>, table: Table, a: Agent, d: Endpoint)
    requires forall i :: 0 <= i < |cs| ==> Direct(cs[i])
    requires IsTable(RoutesAfter(map[], cs), table) && a.routes == table
    ensures Closed(table)
    ensures Reachable(a, d) <==> d in table && table[d].nextHop in a.peers
  {
    hide IsTable, RoutesAfter;
    RunKeepsDirect(map[], cs);
    TableIsClosed(RoutesAfter(map[], cs), table);
  }

  /** There is a connected route to this target. */
  ghost predicate Attached(routes: Routes, t: Endpoint) {
    t in routes && exists via :: via in routes[t] && via.kind.Connected?
  }

  /** What every table says of a target: its entry is one of the routes to it, with the limit of that route, over a next
      hop that is attached, and a connected route if there is one; and a target is missing only if some route to it leads
      over a hop that is not attached. */
  lemma TableServes(routes: Routes, table: Table, t: Endpoint)
    requires IsTable(routes, table)
    ensures t in table ==>
              && t in routes
              && exists via :: via in routes[t] && table[t] == NextHop(via.nextHop, routes[t][via])
                               && (via.kind.Static? ==> Attached(routes, via.nextHop) && !Attached(routes, t))
    ensures t !in table && t in routes && routes[t] != map[] ==>
              !Attached(routes, t) && exists via :: via in routes[t] && via.kind.Static? && !Attached(routes, via.nextHop)
  {
    forall e
      ensures IsConnected(routes, e) <==> Attached(routes, e)
    {
    }
    if t in table {
      var via :| Chosen(routes, t, via, table[t]);
      assert via in routes[t];
    } else if t in routes && routes[t] != map[] {
      var via :| NotAvailable(routes, t, via);
      assert via in routes[t];
    }
  }

  // ----- routes by their history

  predicate Adds(c: Change, t: Endpoint, via: Via) {
    c.AddRoute? && c.target == t && c.via == via
  }

  predicate Removes(c: Change, t: Endpoint, via: Via) {
    c == RemoveRoute(t, via)
  }

  /** The route is removed at some place from i on, before j. */
  predicate RemovedWithin(cs: seq<Change>, t: Endpoint, via: Via, i: nat, j: nat) {
    exists k :: i <= k < j && k < |cs| && Removes(cs[k], t, via)
  }

  /** The addition at i still counts: the route has not been removed since, and was not known when it came. */
  predicate Counts(cs: seq<Change>, t: Endpoint, via: Via, i: nat) {
    && i < |cs| && Adds(cs[i], t, via) && !RemovedWithin(cs, t, via, i, |cs|)
    && forall j :: 0 <= j < i && Adds(cs[j], t, via) ==> RemovedWithin(cs, t, via, j, i)
  }

  lemma {:induction false} OneChangeMore(routes: Routes, cs: seq<Change>, c: Change)
    ensures RoutesAfter(routes, cs + [c]) == Apply(RoutesAfter(routes, cs), c)
    decreases |cs|
  {
    hide Apply;
    if cs == [] {
      assert cs + [c] == [c] && [c][1..] == [];
    } else {
      assert (cs + [c])[1..] == cs[1..] + [c];
      OneChangeMore(Apply(routes, cs[0]), cs[1..], c);
    }
  }

  lemma RemovedPrefix(cs: seq<Change>, c: Change, t: Endpoint, via: Via, i: nat, j: nat)
    requires j <= |cs|
    ensures RemovedWithin(cs + [c], t, via, i, j) <==> RemovedWithin(cs, t, via, i, j)
  {
    hide Removes;
    assert forall k :: 0 <= k < |cs| ==> (cs + [c])[k] == cs[k];
    if RemovedWithin(cs, t, via, i, j) {
      var k :| i <= k < j && k < |cs| && Removes(cs[k], t, via);
      assert Removes((cs + [c])[k], t, via);
    }
  }

  lemma RemovedMore(cs: seq<Change>, c: Change, t: Endpoint, via: Via, i: nat)
    requires i <= |cs|
    ensures RemovedWithin(cs + [c], t, via, i, |cs| + 1) <==> RemovedWithin(cs, t, via, i, |cs|) || Removes(c, t, via)
  {
    hide Removes;
    RemovedPrefix(cs, c, t, via, i, |cs|);
    assert (cs + [c])[|cs|] == c;
  }

  /** One change more: an older addition still counts unless the route is removed, and a new one counts if none did. */
  lemma CountsMore(cs: seq<Change>, c: Change, t: Endpoint, via: Via, i: nat)
    ensures i < |cs| ==> (Counts(cs + [c], t, via, i) <==> Counts(cs, t, via, i) && !Removes(c, t, via))
    ensures Counts(cs + [c], t, via, |cs|) <==>
            Adds(c, t, via) && forall j :: 0 <= j < |cs| && Adds(cs[j], t, via) ==> RemovedWithin(cs, t, via, j, |cs|)
  {
    hide RemovedWithin;
    var cs' := cs + [c];
    assert forall k :: 0 <= k < |cs| ==> cs'[k] == cs[k];
    assert cs'[|cs|] == c;
    if i < |cs| {
      RemovedMore(cs, c, t, via, i);
      forall j | 0 <= j < i
        ensures RemovedWithin(cs', t, via, j, i) <==> RemovedWithin(cs, t, via, j, i)
      {
        RemovedPrefix(cs, c, t, via, j, i);
      }
    }
    forall j | 0 <= j < |cs|
      ensures RemovedWithin(cs', t, via, j, |cs|) <==> RemovedWithin(cs, t, via, j, |cs|)
    {
      RemovedPrefix(cs, c, t, via, j, |cs|);
    }
    RemovedMore(cs, c, t, via, |cs|);
    assert Adds(c, t, via) ==> !Removes(c, t, via);
    assert !RemovedWithin(cs, t, via, |cs|, |cs|) by {
      NothingBetween(cs, t, via);
    }
  }

  lemma NothingBetween(cs: seq<Change>, t: Endpoint, via: Via)
    ensures !RemovedWithin(cs, t, via, |cs|, |cs|)
  {
  }

  /** Where an addition was not followed by a removal, there is one that counts. */
  lemma {:induction false} UnremovedCounts(cs: seq<Change>, t: Endpoint, via: Via, j: nat) returns (i: nat)
    requires j < |cs| && Adds(cs[j], t, via) && !RemovedWithin(cs, t, via, j, |cs|)
    ensures Counts(cs, t, via, i)
    decreases j
  {
    if k :| 0 <= k < j && Adds(cs[k], t, via) && !RemovedWithin(cs, t, via, k, j) {
      assert !RemovedWithin(cs, t, via, k, |cs|);
      i := UnremovedCounts(cs, t, via, k);
    } else {
      i := j;
    }
  }

  /** How one change touches the routes to one target by one way. */
  lemma ApplyTo(routes: Routes, c: Change, t: Endpoint, via: Via)
    ensures var known, known' := RoutesTo(routes, t), RoutesTo(Apply(routes, c), t);
            && (Removes(c, t, via) ==> via !in known')
            && (Adds(c, t, via) && via !in known ==> via in known' && known'[via] == c.maxSize)
            && (!Removes(c, t, via) && (via in known || !Adds(c, t, via)) ==>
                  (via in known' <==> via in known) && (via in known ==> known'[via] == known[via]))
  {
  }

  /** Over every run of additions and removals: a route is known if and only if an addition of it still counts, and its
      size limit is the one that came with that addition, whatever later additions said. */
  lemma {:induction false} RoutesByHistory(cs: seq<Change>, t: Endpoint, via: Via)
    ensures var known := RoutesTo(RoutesAfter(map[], cs), t);
            && (via in known <==> exists i: nat :: Counts(cs, t, via, i))
            && forall i: nat :: Counts(cs, t, via, i) ==> i < |cs| && cs[i].AddRoute? && known[via] == cs[i].maxSize
    decreases |cs|
  {
    hide Apply, Counts, Adds, Removes, RoutesTo;
    if cs == [] {
      NoRoutes(cs, t, via);
    } else {
      var n := |cs| - 1;
      var before, c := cs[..n], cs[n];
      assert cs == before + [c];
      RoutesByHistory(before, t, via);
      OneChangeMore(map[], before, c);
      ApplyTo(RoutesAfter(map[], before), c, t, via);
      forall i: nat
        ensures i < n ==> (Counts(cs, t, via, i) <==> Counts(before, t, via, i) && !Removes(c, t, via))
      {
        CountsMore(before, c, t, via, i);
      }
      CountsMore(before, c, t, via, n);
      LastCounts(before, t, via);
      CountsIsIn(cs, t, via);
      NotBoth(c, t, via);
      assert forall i :: 0 <= i < n ==> cs[i] == before[i];
      if i: nat :| Counts(before, t, via, i) {
        assert i < n && (Counts(cs, t, via, i) <==> !Removes(c, t, via));
      } else if Adds(c, t, via) {
        assert Counts(cs, t, via, n);
      }
    }
  }

  lemma NotBoth(c: Change, t: Endpoint, via: Via)
    ensures !(Adds(c, t, via) && Removes(c, t, via)) && (Adds(c, t, via) ==> c.AddRoute?)
  {
  }

  lemma CountsIsIn(cs: seq<Change>, t: Endpoint, via: Via)
    ensures forall i: nat :: Counts(cs, t, via, i) ==> i < |cs| && cs[i].AddRoute?
  {
  }

  lemma NoRoutes(cs: seq<Change>, t: Endpoint, via: Via)
    requires cs == []
    ensures via !in RoutesTo(RoutesAfter(map[], cs), t) && forall i: nat :: !Counts(cs, t, via, i)
  {
  }

  /** No addition counts if and only if each has been removed. */
  lemma LastCounts(cs: seq<Change>, t: Endpoint, via: Via)
    ensures (exists i: nat :: Counts(cs, t, via, i)) <==>
            !forall j :: 0 <= j < |cs| && Adds(cs[j], t, via) ==> RemovedWithin(cs, t, via, j, |cs|)
  {
    hide RemovedWithin, Adds;
    if j :| 0 <= j < |cs| && Adds(cs[j], t, via) && !RemovedWithin(cs, t, via, j, |cs|) {
      var i := UnremovedCounts(cs, t, via, j);
    }
  }
}
