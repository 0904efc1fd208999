// Direct pod routes: every other node's pod CIDRs through that node's address, kept in step by
// difference to the routes applied last.

module PodNet {
  import opened Wrappers
  import opened Net
  import opened Routes

  const MAIN_TABLE: nat := 254

  datatype NodeRoute = NodeRoute(name: string, ip: IpAddr, podCidrs: seq<IpNet>)

  function RouteTo(n: NodeRoute, cidr: IpNet): Route {
    Route(cidr, Some(n.ip), MAIN_TABLE)
  }

  function RoutesOf(n: NodeRoute, cidrs: seq<IpNet>): seq<Route> {
    if cidrs == [] then [] else RoutesOf(n, cidrs[..|cidrs|-1]) + [RouteTo(n, cidrs[|cidrs|-1])]
  }

  function PodRoutes(localName: string, nodes: seq<NodeRoute>): seq<Route> {
    if nodes == [] then [] else
      var n := nodes[|nodes|-1];
      PodRoutes(localName, nodes[..|nodes|-1]) + if n.name == localName then [] else RoutesOf(n, n.podCidrs)
  }

  lemma {:induction false} RoutesOfMembers(n: NodeRoute, cidrs: seq<IpNet>, r: Route)
    ensures r in RoutesOf(n, cidrs) <==> r.dst in cidrs && r == RouteTo(n, r.dst)
  {
    if cidrs != [] {
      var rest, last := cidrs[..|cidrs|-1], cidrs[|cidrs|-1];
      assert cidrs == rest + [last];
      RoutesOfMembers(n, rest, r);
    }
  }

  /** A route is desired iff it leads to some other node's pod CIDR through that node. */
  lemma {:induction false} PodRoutesMembers(localName: string, nodes: seq<NodeRoute>, r: Route)
    ensures r in PodRoutes(localName, nodes) <==>
            exists n :: n in nodes && n.name != localName && r.dst in n.podCidrs && r.gateway == Some(n.ip) && r.table == 254
  {
    if nodes != [] {
      var rest, last := nodes[..|nodes|-1], nodes[|nodes|-1];
      assert nodes == rest + [last];
      PodRoutesMembers(localName, rest, r);
      RoutesOfMembers(last, last.podCidrs, r);
    }
  }

  /** `desired_pod_routes`. */
  method DesiredPodRoutes(localName: string, nodes: seq<NodeRoute>) returns (routes: seq<Route>)
    ensures routes == PodRoutes(localName, nodes)
  {
    routes := [];
    for i := 0 to |nodes|
      invariant routes == PodRoutes(localName, nodes[..i])
    {
      var n := nodes[i];
      assert nodes[..i+1][..i] == nodes[..i];
      if n.name == localName {
        continue;
      }
      ghost var before := routes;
      for j := 0 to |n.podCidrs|
        invariant routes == before + RoutesOf(n, n.podCidrs[..j])
      {
        routes := routes + [Route(n.podCidrs[j], Some(n.ip), MAIN_TABLE)];
        assert n.podCidrs[..j+1][..j] == n.podCidrs[..j];
      }
      assert n.podCidrs[..|n.podCidrs|] == n.podCidrs;
    }
    assert nodes[..|nodes|] == nodes;
  }

  // ---- one pass -----------------------------------------------------------------------------------

  /** One route for each destination and table: pod CIDRs are distinct. */
  ghost predicate DistinctSlots(rs: seq<Route>) {
    forall r, q :: r in rs && q in rs && SlotOf(r) == SlotOf(q) ==> r == q
  }

  function Minus(rs: seq<Route>, qs: seq<Route>): (d: seq<Route>)
    ensures forall r :: r in d <==> r in rs && r !in qs
  {
    if rs == [] then [] else
      var rest, last := Minus(rs[..|rs|-1], qs), rs[|rs|-1];
      assert rs == rs[..|rs|-1] + [last];
      if last in qs then rest else rest + [last]
  }

  ghost predicate SlotIn(rs: seq<Route>, s: Slot) {
    exists r :: r in rs && SlotOf(r) == s
  }

  function GatewayIn(rs: seq<Route>, s: Slot): Option<Option<IpAddr>> {
    if rs == [] then None
    else if SlotOf(rs[|rs|-1]) == s then Some(rs[|rs|-1].gateway)
    else GatewayIn(rs[..|rs|-1], s)
  }

  lemma {:induction false} GatewayOf(rs: seq<Route>, s: Slot)
    ensures GatewayIn(rs, s).Some? <==> SlotIn(rs, s)
    ensures GatewayIn(rs, s).Some? ==> exists r :: r in rs && SlotOf(r) == s && r.gateway == GatewayIn(rs, s).value
  {
    if rs != [] {
      var rest, last := rs[..|rs|-1], rs[|rs|-1];
      assert rs == rest + [last];
      GatewayOf(rest, s);
      assert last in rs;
      if GatewayIn(rest, s).Some? && SlotOf(last) != s {
        var r :| r in rest && SlotOf(r) == s && r.gateway == GatewayIn(rest, s).value;
        assert r in rs;
      }
    }
  }

  function Look(k: RouteTable, s: Slot): Option<Option<IpAddr>> {
    if s in k then Some(k[s]) else None
  }

  /** Routes are replaced first and deleted after, by destination and table only. */
  function LookAfter(k: RouteTable, applied: seq<Route>, desired: seq<Route>, s: Slot): Option<Option<IpAddr>> {
    if GatewayIn(Minus(applied, desired), s).Some? then None
    else if GatewayIn(Minus(desired, applied), s).Some? then GatewayIn(Minus(desired, applied), s)
    else Look(k, s)
  }

  class PodNetController {
    const nl: Netlink
    const localName: string
    var applied: seq<Route>

    constructor (nl: Netlink, localName: string)
      ensures this.nl == nl && this.localName == localName && applied == []
    {
      this.nl, this.localName, applied := nl, localName, [];
    }

    /** `PodNetController::reconcile` on one snapshot of the nodes. */
    method Reconcile(nodes: seq<NodeRoute>) returns (added: nat, removed: nat)
      modifies this, nl
      ensures applied == PodRoutes(localName, nodes)
      ensures forall s: Slot :: Look(nl.routes, s) == LookAfter(old(nl.routes), old(applied), applied, s)
      ensures added == |Minus(applied, old(applied))| && removed == |Minus(old(applied), applied)|
    {
      var desired := DesiredPodRoutes(localName, nodes);
      var toAdd, toDel := Minus(desired, applied), Minus(applied, desired);
      for i := 0 to |toAdd|
        invariant forall s: Slot :: Look(nl.routes, s) ==
                    if GatewayIn(toAdd[..i], s).Some? then GatewayIn(toAdd[..i], s) else Look(old(nl.routes), s)
      {
        nl.RouteReplace(toAdd[i]);
        assert toAdd[..i+1][..i] == toAdd[..i];
      }
      assert toAdd[..|toAdd|] == toAdd;
      for i := 0 to |toDel|
        invariant forall s: Slot :: Look(nl.routes, s) ==
                    if GatewayIn(toDel[..i], s).Some? then None
                    else if GatewayIn(toAdd, s).Some? then GatewayIn(toAdd, s) else Look(old(nl.routes), s)
      {
        nl.RouteDel(toDel[i]);
        assert toDel[..i+1][..i] == toDel[..i];
      }
      assert toDel[..|toDel|] == toDel;
      applied := desired;
      added, removed := |toAdd|, |toDel|;
    }
  }

  // ---- what a pass achieves ---------------------------------------------------------------------------

  ghost predicate Holds(k: RouteTable, r: Route) {
    Look(k, SlotOf(r)) == Some(r.gateway)
  }

  ghost predicate HoldsAll(k: RouteTable, rs: seq<Route>) {
    forall r :: r in rs ==> Holds(k, r)
  }

  /** The destination was applied before, through another gateway. */
  ghost predicate Moved(applied: seq<Route>, r: Route) {
    exists q :: q in applied && SlotOf(q) == SlotOf(r) && q != r
  }

  ghost predicate PassedFrom(k: RouteTable, applied: seq<Route>, desired: seq<Route>, after: RouteTable) {
    forall s: Slot :: Look(after, s) == LookAfter(k, applied, desired, s)
  }

  /** The exact fate of a desired route: it is missing after the pass if its destination changed gateway
      (replaced, then deleted), and otherwise there if it is new, or was there. */
  lemma {:induction false} DesiredRouteIff(k: RouteTable, applied: seq<Route>, desired: seq<Route>, after: RouteTable, r: Route)
    requires DistinctSlots(applied) && DistinctSlots(desired) && PassedFrom(k, applied, desired, after) && r in desired
    ensures Holds(after, r) <==> !Moved(applied, r) && (r !in applied || Holds(k, r))
    ensures Moved(applied, r) ==> SlotOf(r) !in after
  {
    var s := SlotOf(r);
    var gone, new_ := Minus(applied, desired), Minus(desired, applied);
    GatewayOf(gone, s);
    GatewayOf(new_, s);
    assert Look(after, s) == LookAfter(k, applied, desired, s);
    if Moved(applied, r) {
      var q :| q in applied && SlotOf(q) == s && q != r;
      assert q in gone;
      assert SlotIn(gone, s);
    } else {
      assert forall q :: q in gone && SlotOf(q) == s ==> q == r;
      assert forall q :: q in new_ && SlotOf(q) == s ==> q == r;
      if r !in applied {
        assert r in new_ && SlotIn(new_, s);
      }
    }
  }

  /** A pass over a kernel that held what was applied leaves it holding what is desired iff no destination
      changed gateway. */
  lemma {:induction false} PassConvergesIff(k: RouteTable, applied: seq<Route>, desired: seq<Route>, after: RouteTable)
    requires DistinctSlots(applied) && DistinctSlots(desired) && PassedFrom(k, applied, desired, after) && HoldsAll(k, applied)
    ensures HoldsAll(after, desired) <==> forall r :: r in desired ==> !Moved(applied, r)
  {
    hide PassedFrom, Holds, Moved, DistinctSlots;
    forall r | r in desired
      ensures Holds(after, r) <==> !Moved(applied, r)
    {
      DesiredRouteIff(k, applied, desired, after, r);
    }
  }

  /** A route lost this way stays lost: later passes find it in `applied` and do not touch it. */
  lemma {:induction false} LostRouteStaysLost(k: RouteTable, applied: seq<Route>, desired: seq<Route>, after: RouteTable, r: Route)
    requires DistinctSlots(applied) && DistinctSlots(desired) && PassedFrom(k, applied, desired, after)
    requires r in applied && r in desired && !Holds(k, r)
    ensures !Holds(after, r)
  {
    DesiredRouteIff(k, applied, desired, after, r);
  }

  /** Nothing is left of a route no longer desired. */
  lemma {:induction false} DroppedRouteGone(k: RouteTable, applied: seq<Route>, desired: seq<Route>, after: RouteTable, s: Slot)
    requires PassedFrom(k, applied, desired, after) && SlotIn(applied, s) && !SlotIn(desired, s)
    ensures s !in after
  {
    var q :| q in applied && SlotOf(q) == s;
    assert q in Minus(applied, desired);
    GatewayOf(Minus(applied, desired), s);
    assert Look(after, s) == LookAfter(k, applied, desired, s);
  }

  /** The kernel holds exactly the given routes. */
  ghost predicate Exactly(k: RouteTable, rs: seq<Route>) {
    HoldsAll(k, rs) && forall s: Slot :: s in k ==> SlotIn(rs, s)
  }

  /** A run from an empty kernel; `snapshots` are the desired routes of its passes. */
  ghost predicate IsRun(tables: seq<RouteTable>, snapshots: seq<seq<Route>>) {
    && |tables| == |snapshots| && |tables| > 0 && tables[0] == map[] && snapshots[0] == []
    && (forall i :: 0 <= i < |snapshots| ==> DistinctSlots(snapshots[i]))
    && forall i :: 0 < i < |tables| ==> Pass(tables, snapshots, i)
  }

  ghost predicate Pass(tables: seq<RouteTable>, snapshots: seq<seq<Route>>, i: nat)
    requires 0 < i < |tables| && |tables| == |snapshots|
  {
    PassedFrom(tables[i-1], snapshots[i-1], snapshots[i], tables[i])
  }

  /** No destination changes gateway from one pass to the next. */
  ghost predicate Steady(snapshots: seq<seq<Route>>) {
    forall i, r :: 0 < i < |snapshots| && r in snapshots[i] ==> !Moved(snapshots[i-1], r)
  }

  lemma {:induction false} ExactlyKept(k: RouteTable, applied: seq<Route>, desired: seq<Route>, after: RouteTable)
    requires DistinctSlots(applied) && DistinctSlots(desired) && PassedFrom(k, applied, desired, after)
    requires Exactly(k, applied) && forall r :: r in desired ==> !Moved(applied, r)
    ensures Exactly(after, desired)
  {
    hide Holds, Moved, DistinctSlots, LookAfter, GatewayIn;
    PassConvergesIff(k, applied, desired, after);
    forall s: Slot | s in after
      ensures SlotIn(desired, s)
    {
      assert Look(after, s) == LookAfter(k, applied, desired, s);
      if !SlotIn(desired, s) {
        Undesired(k, applied, desired, after, s);
      }
    }
  }

  lemma {:induction false} Undesired(k: RouteTable, applied: seq<Route>, desired: seq<Route>, after: RouteTable, s: Slot)
    requires PassedFrom(k, applied, desired, after) && !SlotIn(desired, s) && (s in k ==> SlotIn(applied, s))
    ensures s !in after
  {
    if SlotIn(applied, s) {
      DroppedRouteGone(k, applied, desired, after, s);
    } else {
      GatewayOf(Minus(desired, applied), s);
      assert Look(after, s) == LookAfter(k, applied, desired, s);
    }
  }

  /** Runs converge while gateways are steady: after every pass the kernel holds exactly the desired routes. */
  lemma {:induction false} SteadyRunsConverge(tables: seq<RouteTable>, snapshots: seq<seq<Route>>, n: nat)
    requires IsRun(tables, snapshots) && Steady(snapshots) && n < |tables|
    ensures Exactly(tables[n], snapshots[n])
  {
    hide Exactly, DistinctSlots, PassedFrom, Moved;
    if n == 0 {
      EmptyExactly();
    } else {
      SteadyRunsConverge(tables, snapshots, n - 1);
      assert Pass(tables, snapshots, n);
      assert DistinctSlots(snapshots[n-1]) && DistinctSlots(snapshots[n]);
      ExactlyKept(tables[n-1], snapshots[n-1], snapshots[n], tables[n]);
    }
  }

  lemma {:induction false} EmptyExactly()
    ensures Exactly(map[], [])
  {
  }

  // ---- the failing case ---------------------------------------------------------------------------------

  const CIDR: IpNet := Cidr(Ip(V4, 0), 24)
  const OLD_NODE := NodeRoute("b", Ip(V4, 1), [CIDR])
  const NEW_NODE := NodeRoute("b", Ip(V4, 2), [CIDR])

  /** A node that changes its address loses the route to its pods, and the next pass does not bring it back. */
  lemma {:induction false} MovedNodeLosesRoute(k: RouteTable, after: RouteTable, later: RouteTable)
    requires HoldsAll(k, PodRoutes("a", [OLD_NODE]))
    requires PassedFrom(k, PodRoutes("a", [OLD_NODE]), PodRoutes("a", [NEW_NODE]), after)
    requires PassedFrom(after, PodRoutes("a", [NEW_NODE]), PodRoutes("a", [NEW_NODE]), later)
    ensures (CIDR, MAIN_TABLE) !in after && (CIDR, MAIN_TABLE) !in later
  {
    var was, now := RouteTo(OLD_NODE, CIDR), RouteTo(NEW_NODE, CIDR);
    OneNodeRoutes(OLD_NODE);
    OneNodeRoutes(NEW_NODE);
    assert was in [was] && now in [now];
    assert Moved([was], now);
    DesiredRouteIff(k, [was], [now], after, now);
    assert Look(later, SlotOf(now)) == LookAfter(after, [now], [now], SlotOf(now));
    GatewayOf(Minus([now], [now]), SlotOf(now));
  }

  lemma {:induction false} OneNodeRoutes(n: NodeRoute)
    requires n.podCidrs == [CIDR] && n.name == "b"
    ensures PodRoutes("a", [n]) == [RouteTo(n, CIDR)]
  {
    assert [n][..0] == [] && [CIDR][..0] == [];
    assert RoutesOf(n, [CIDR]) == RoutesOf(n, []) + [RouteTo(n, CIDR)];
    assert PodRoutes("a", [n]) == PodRoutes("a", []) + RoutesOf(n, [CIDR]);
  }
}
