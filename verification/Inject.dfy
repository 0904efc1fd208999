// Route injection: best-path events of the BGP engine become kernel routes of one table.

module Inject {
  import opened Wrappers
  import opened Net
  import opened Routes

  datatype BestPath = BestPath(prefix: IpNet, nextHop: IpAddr, withdrawal: bool)

  datatype OverlayType = Subnet | Full

  /** `needs_tunnel`. */
  predicate NeedsTunnel(nextHop: IpAddr, localSubnets: seq<IpNet>, overlay: OverlayType) {
    match overlay
    case Full => true
    case Subnet => !exists n | n in localSubnets :: Contains(n, nextHop)
  }

  datatype InjectedRoute = InjectedRoute(route: Route, viaTunnel: bool)

  type RouteState = map<IpNet, InjectedRoute>

  /** `is_rejected`: two comparisons for each reject prefix. */
  predicate IsRejected(reject: seq<IpNet>, prefix: IpNet) {
    exists r | r in reject :: Contains(r, Network(prefix)) && prefix.len >= r.len
  }

  /** They decide address-set inclusion. */
  lemma {:induction false} IsRejectedIff(reject: seq<IpNet>, prefix: IpNet)
    ensures IsRejected(reject, prefix) <==> exists r :: r in reject && Covers(r, prefix)
  {
    hide Contains, Covers, Network;
    forall r | r in reject
      ensures Covers(r, prefix) <==> Contains(r, Network(prefix)) && prefix.len >= r.len
    {
      CoversIff(r, prefix);
    }
  }

  datatype Injector = Injector(localSubnets: seq<IpNet>, overlay: OverlayType, table: nat, reject: seq<IpNet>)

  function Injected(c: Injector, ev: BestPath): InjectedRoute {
    InjectedRoute(Route(ev.prefix, Some(ev.nextHop), c.table), NeedsTunnel(ev.nextHop, c.localSubnets, c.overlay))
  }

  predicate Accepted(c: Injector, ev: BestPath) {
    !ev.withdrawal && !IsRejected(c.reject, ev.prefix)
  }

  function Applied(c: Injector, routes: RouteState, ev: BestPath): RouteState {
    if Accepted(c, ev) then routes[ev.prefix := Injected(c, ev)] else routes - {ev.prefix}
  }

  /** The kernel's table of this injector holds exactly the state map. */
  ghost predicate InStep(c: Injector, routes: RouteState, kernel: RouteTable) {
    forall p: IpNet ::
      && ((p, c.table) in kernel <==> p in routes)
      && (p in routes ==> kernel[(p, c.table)] == routes[p].route.gateway)
  }

  /** Routes of other tables. */
  ghost predicate OthersKept(c: Injector, before: RouteTable, after: RouteTable) {
    forall s: Slot :: s.1 != c.table ==> (s in after <==> s in before) && (s in before ==> after[s] == before[s])
  }

  /** Every entry of the map is a route to its own key, in the injector's table, with the tunnel decision. */
  ghost predicate StateValid(c: Injector, routes: RouteState) {
    forall p :: p in routes ==>
                  && routes[p].route.dst == p && routes[p].route.table == c.table && routes[p].route.gateway.Some?
                  && routes[p].viaTunnel == NeedsTunnel(routes[p].route.gateway.value, c.localSubnets, c.overlay)
  }

  class RouteInjector {
    const nl: Netlink
    const cfg: Injector
    var routes: RouteState

    ghost predicate Valid()
      reads this
    {
      StateValid(cfg, routes)
    }

    constructor (nl: Netlink, cfg: Injector)
      ensures this.nl == nl && this.cfg == cfg && routes == map[] && Valid()
    {
      this.nl, this.cfg, routes := nl, cfg, map[];
    }

    /** `on_event`. */
    method OnEvent(ev: BestPath)
      requires Valid()
      modifies this, nl
      ensures Valid() && routes == Applied(cfg, old(routes), ev)
      ensures InStep(cfg, old(routes), old(nl.routes)) ==> InStep(cfg, routes, nl.routes)
      ensures OthersKept(cfg, old(nl.routes), nl.routes)
    {
      hide IsRejected, NeedsTunnel;
      if ev.withdrawal {
        Withdraw(ev.prefix);
        return;
      }
      if IsRejected(cfg.reject, ev.prefix) {
        Withdraw(ev.prefix);
        return;
      }
      var viaTunnel := NeedsTunnel(ev.nextHop, cfg.localSubnets, cfg.overlay);
      var route := Route(ev.prefix, Some(ev.nextHop), cfg.table);
      nl.RouteReplace(route);
      routes := routes[ev.prefix := InjectedRoute(route, viaTunnel)];
    }

    /** The common end of a withdrawal and a rejection. */
    method Withdraw(prefix: IpNet)
      requires Valid()
      modifies this, nl
      ensures Valid() && routes == old(routes) - {prefix}
      ensures InStep(cfg, old(routes), old(nl.routes)) ==> InStep(cfg, routes, nl.routes)
      ensures OthersKept(cfg, old(nl.routes), nl.routes)
    {
      hide NeedsTunnel;
      if prefix in routes {
        var ir := routes[prefix];
        routes := routes - {prefix};
        nl.RouteDel(ir.route);
      }
    }

    /** `sync`: whatever became of the kernel's table, every route of the map is there again; where it was
        in step, nothing changes. */
    method Sync()
      requires Valid()
      modifies nl
      ensures forall s: Slot :: s in nl.routes <==> s in old(nl.routes) || (s.1 == cfg.table && s.0 in routes)
      ensures forall s: Slot :: s in nl.routes ==>
                nl.routes[s] == if s.1 == cfg.table && s.0 in routes then routes[s.0].route.gateway else old(nl.routes)[s]
      ensures InStep(cfg, routes, old(nl.routes)) ==> nl.routes == old(nl.routes)
    {
      hide NeedsTunnel;
      var rest := routes.Keys;
      while rest != {}
        invariant rest <= routes.Keys
        invariant forall s: Slot :: s in nl.routes <==> s in old(nl.routes) || (s.1 == cfg.table && s.0 in routes.Keys - rest)
        invariant forall s: Slot :: s in nl.routes ==>
                    nl.routes[s] == if s.1 == cfg.table && s.0 in routes.Keys - rest then routes[s.0].route.gateway else old(nl.routes)[s]
        decreases |rest|
      {
        var p :| p in rest;
        nl.RouteReplace(routes[p].route);
        rest := rest - {p};
      }
    }
  }

  // ---- event sequences ------------------------------------------------------------------------------

  /** The state map after some events, from empty. */
  function Replay(c: Injector, events: seq<BestPath>): RouteState {
    if events == [] then map[] else Applied(c, Replay(c, events[..|events|-1]), events[|events|-1])
  }

  /** The last event about a prefix. */
  function LastAbout(events: seq<BestPath>, p: IpNet): Option<BestPath> {
    if events == [] then None
    else if events[|events|-1].prefix == p then Some(events[|events|-1])
    else LastAbout(events[..|events|-1], p)
  }

  lemma {:induction false} ReplayByLast(c: Injector, events: seq<BestPath>, p: IpNet)
    ensures var last := LastAbout(events, p);
            && (p in Replay(c, events) <==> last.Some? && Accepted(c, last.value))
            && (p in Replay(c, events) ==> Replay(c, events)[p] == Injected(c, last.value))
    ensures StateValid(c, Replay(c, events))
  {
    hide IsRejected, NeedsTunnel;
    if events != [] {
      ReplayByLast(c, events[..|events|-1], p);
    }
  }

  /** After any events, a prefix is installed iff the last event about it is a path and no reject prefix covers
      it; then through that event's next hop, and via a tunnel always in full overlay, in subnet overlay exactly
      if the next hop lies in no local subnet. */
  lemma {:induction false} ReplayIsLastWord(c: Injector, events: seq<BestPath>, p: IpNet)
    ensures var last, routes := LastAbout(events, p), Replay(c, events);
            && (p in routes <==> last.Some? && !last.value.withdrawal && forall r :: r in c.reject ==> !Covers(r, p))
            && (p in routes ==>
                  && routes[p].route == Route(p, Some(last.value.nextHop), c.table)
                  && (c.overlay == Full ==> routes[p].viaTunnel)
                  && (c.overlay == Subnet ==>
                        (routes[p].viaTunnel <==> forall n :: n in c.localSubnets ==> !Contains(n, last.value.nextHop))))
    ensures StateValid(c, Replay(c, events))
  {
    hide IsRejected, Covers, Contains;
    ReplayByLast(c, events, p);
    IsRejectedIff(c.reject, p);
    LastIsAbout(events, p);
  }

  lemma {:induction false} LastIsAbout(events: seq<BestPath>, p: IpNet)
    ensures LastAbout(events, p).Some? ==> LastAbout(events, p).value.prefix == p
  {
    if events != [] {
      LastIsAbout(events[..|events|-1], p);
    }
  }

  /** A whole stream of events on an empty table: the kernel ends in step with the replayed map. */
  method ProcessEvents(injector: RouteInjector, events: seq<BestPath>)
    requires injector.Valid() && injector.routes == map[]
    requires forall p: IpNet :: (p, injector.cfg.table) !in injector.nl.routes
    modifies injector, injector.nl
    ensures injector.Valid() && injector.routes == Replay(injector.cfg, events)
    ensures InStep(injector.cfg, injector.routes, injector.nl.routes)
    ensures OthersKept(injector.cfg, old(injector.nl.routes), injector.nl.routes)
  {
    hide Applied;
    for i := 0 to |events|
      invariant injector.Valid() && injector.routes == Replay(injector.cfg, events[..i])
      invariant InStep(injector.cfg, injector.routes, injector.nl.routes)
      invariant OthersKept(injector.cfg, old(injector.nl.routes), injector.nl.routes)
    {
      injector.OnEvent(events[i]);
      assert events[..i+1][..i] == events[..i];
    }
    assert events[..|events|] == events;
  }
}
