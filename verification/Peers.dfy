// iBGP peers: deriving them from the nodes, and keeping a BGP engine's neighbours in step by difference.

module Peers {
  import opened Wrappers
  import opened Net

  datatype NodeBgp = NodeBgp(name: string, ip: IpAddr, asn: nat, rrServer: Option<nat>, rrClient: Option<nat>)

  datatype BgpPeer = BgpPeer(neighbor: IpAddr, peerAsn: nat, isExternal: bool, rrClient: bool, rrClusterId: Option<nat>)

  // ---- derivation -------------------------------------------------------------------------------

  /** Whether `local` peers with another node. */
  predicate ShouldPeer(local: NodeBgp, o: NodeBgp, fullMesh: bool) {
    if local.rrServer.Some? then true
    else if local.rrClient.Some? then o.rrServer.Some?
    else fullMesh || o.asn == local.asn
  }

  /** A route-reflector server treats every neighbour that is not one as its client. */
  function PeerFor(local: NodeBgp, o: NodeBgp): BgpPeer {
    var client := local.rrServer.Some? && o.rrServer.None?;
    BgpPeer(o.ip, o.asn, false, client, if client then local.rrServer else None)
  }

  function Derived(local: NodeBgp, others: seq<NodeBgp>, fullMesh: bool): seq<BgpPeer> {
    if others == [] then [] else
      var o := others[|others|-1];
      Derived(local, others[..|others|-1], fullMesh)
      + if o.name != local.name && ShouldPeer(local, o, fullMesh) then [PeerFor(local, o)] else []
  }

  function Desired(local: NodeBgp, others: seq<NodeBgp>, fullMesh: bool, enableIbgp: bool): seq<BgpPeer> {
    if enableIbgp then Derived(local, others, fullMesh) else []
  }

  /** `derive_ibgp_peers`. */
  method DeriveIbgpPeers(local: NodeBgp, others: seq<NodeBgp>, fullMesh: bool, enableIbgp: bool) returns (peers: seq<BgpPeer>)
    ensures peers == Desired(local, others, fullMesh, enableIbgp)
  {
    peers := [];
    if !enableIbgp {
      return;
    }
    var localIsRrServer := local.rrServer.Some?;
    var localIsRrClient := local.rrClient.Some?;
    for i := 0 to |others|
      invariant peers == Derived(local, others[..i], fullMesh)
    {
      var o := others[i];
      assert others[..i+1][..i] == others[..i];
      if o.name == local.name {
        continue;
      }
      var rrClient := false;
      var rrClusterId: Option<nat> := None;
      var shouldPeer: bool;
      if localIsRrServer {
        if o.rrServer.None? {
          rrClient := true;
          rrClusterId := local.rrServer;
        }
        shouldPeer := true;
      } else if localIsRrClient {
        shouldPeer := o.rrServer.Some?;
      } else if fullMesh {
        shouldPeer := true;
      } else {
        shouldPeer := o.asn == local.asn;
      }
      if shouldPeer {
        peers := peers + [BgpPeer(o.ip, o.asn, false, rrClient, rrClusterId)];
      }
    }
    assert others[..|others|] == others;
  }

  lemma {:induction false} DerivedMembers(local: NodeBgp, others: seq<NodeBgp>, fullMesh: bool, p: BgpPeer)
    ensures p in Derived(local, others, fullMesh) <==>
            exists o :: o in others && o.name != local.name && ShouldPeer(local, o, fullMesh) && p == PeerFor(local, o)
  {
    if others != [] {
      var rest, last := others[..|others|-1], others[|others|-1];
      assert others == rest + [last];
      DerivedMembers(local, rest, fullMesh, p);
    }
  }

  /** The derived peers role by role. A route-reflector server has every other-named node; a client that is no
      server exactly the servers; a plain node every other-named node in a full mesh, else those of its own AS.
      Address and AS are the node's own, and only a server's non-server neighbours are its clients, under its
      cluster id. */
  lemma {:induction false} DerivedByRole(local: NodeBgp, others: seq<NodeBgp>, fullMesh: bool, enableIbgp: bool, p: BgpPeer)
    ensures p in Desired(local, others, fullMesh, enableIbgp) <==>
            && enableIbgp
            && exists o ::
                 && o in others && o.name != local.name
                 && (local.rrServer == None && local.rrClient != None ==> o.rrServer != None)
                 && (local.rrServer == None && local.rrClient == None ==> fullMesh || o.asn == local.asn)
                 && p.neighbor == o.ip && p.peerAsn == o.asn && !p.isExternal
                 && (p.rrClient <==> local.rrServer != None && o.rrServer == None)
                 && p.rrClusterId == if p.rrClient then local.rrServer else None
  {
    DerivedMembers(local, others, fullMesh, p);
  }

  /** Neither a server nor a client of route reflection. */
  predicate Plain(n: NodeBgp) {
    n.rrServer.None? && n.rrClient.None?
  }

  /** A client of route reflection that is not also a server. */
  predicate ClientOnly(n: NodeBgp) {
    n.rrServer.None? && n.rrClient.Some?
  }

  /** One end is plain, the other is not and would decide differently. */
  predicate OneSided(a: NodeBgp, b: NodeBgp, fullMesh: bool) {
    Plain(b) && ((a.rrServer.Some? && !fullMesh && a.asn != b.asn) || (ClientOnly(a) && (fullMesh || a.asn == b.asn)))
  }

  /** A BGP session needs both ends configured: two nodes agree on having one, except exactly between a
      plain node and a reflector of another AS outside a full mesh, or a plain node and a pure client. */
  lemma {:induction false} SessionsMutualIff(a: NodeBgp, b: NodeBgp, fullMesh: bool)
    ensures (ShouldPeer(a, b, fullMesh) <==> ShouldPeer(b, a, fullMesh)) <==>
            !OneSided(a, b, fullMesh) && !OneSided(b, a, fullMesh)
  {
  }

  /** Two reflection clients of one server have no session of their own, but both have one with the server. */
  lemma {:induction false} ClientsMeetAtServer(a: NodeBgp, b: NodeBgp, s: NodeBgp, fullMesh: bool)
    requires ClientOnly(a) && ClientOnly(b) && s.rrServer.Some?
    ensures !ShouldPeer(a, b, fullMesh) && !ShouldPeer(b, a, fullMesh)
    ensures ShouldPeer(a, s, fullMesh) && ShouldPeer(s, a, fullMesh)
    ensures PeerFor(s, a).rrClient && PeerFor(s, a).rrClusterId == s.rrServer
  {
  }

  // ---- the difference -----------------------------------------------------------------------------

  predicate HasNeighbor(ps: seq<BgpPeer>, a: IpAddr) {
    exists p | p in ps :: p.neighbor == a
  }

  /** Peers of `ps` that are not in `qs`. */
  function Absent(ps: seq<BgpPeer>, qs: seq<BgpPeer>): (d: seq<BgpPeer>)
    ensures forall p :: p in d <==> p in ps && p !in qs
  {
    if ps == [] then [] else
      var rest, last := Absent(ps[..|ps|-1], qs), ps[|ps|-1];
      assert ps == ps[..|ps|-1] + [last];
      if last in qs then rest else rest + [last]
  }

  /** Neighbour addresses of `ps` that no peer of `qs` has. */
  function Gone(ps: seq<BgpPeer>, qs: seq<BgpPeer>): (d: seq<IpAddr>)
    ensures forall a :: a in d <==> HasNeighbor(ps, a) && !HasNeighbor(qs, a)
  {
    if ps == [] then [] else
      var rest, last := Gone(ps[..|ps|-1], qs), ps[|ps|-1];
      assert ps == ps[..|ps|-1] + [last];
      assert forall a :: HasNeighbor(ps, a) <==> HasNeighbor(ps[..|ps|-1], a) || last.neighbor == a;
      if HasNeighbor(qs, last.neighbor) then rest else rest + [last.neighbor]
  }

  /** `peer_diff`. */
  function PeerDiff(current: seq<BgpPeer>, desired: seq<BgpPeer>): (seq<BgpPeer>, seq<IpAddr>) {
    (Absent(desired, current), Gone(current, desired))
  }

  // ---- the controller -------------------------------------------------------------------------------

  datatype PeerConfig = PeerConfig(peer: BgpPeer, gracefulRestart: Option<nat>, multihopTtl: Option<nat>)

  type Neighbors = map<IpAddr, PeerConfig>

  /** `BgpEngine`: peers by neighbour address, added or updated. */
  class BgpEngine {
    var neighbors: Neighbors

    constructor ()
      ensures neighbors == map[]
    {
      neighbors := map[];
    }

    method AddPeer(p: PeerConfig)
      modifies this
      ensures neighbors == old(neighbors)[p.peer.neighbor := p]
    {
      neighbors := neighbors[p.peer.neighbor := p];
    }

    method DeletePeer(a: IpAddr)
      modifies this
      ensures neighbors == old(neighbors) - {a}
    {
      neighbors := neighbors - {a};
    }
  }

  function ToPeerConfig(p: BgpPeer, gracefulRestart: Option<nat>): PeerConfig {
    PeerConfig(p, gracefulRestart, None)
  }

  function FindPeer(ps: seq<BgpPeer>, a: IpAddr): (r: Option<BgpPeer>)
    ensures r.Some? <==> HasNeighbor(ps, a)
    ensures r.Some? ==> r.value in ps && r.value.neighbor == a
  {
    if ps == [] then None else
      var last := ps[|ps|-1];
      assert ps == ps[..|ps|-1] + [last];
      if last.neighbor == a then Some(last) else FindPeer(ps[..|ps|-1], a)
  }

  lemma {:induction false} FindPush(ps: seq<BgpPeer>, i: nat)
    requires i < |ps|
    ensures forall a :: FindPeer(ps[..i+1], a) == if ps[i].neighbor == a then Some(ps[i]) else FindPeer(ps[..i], a)
  {
    var more := ps[..i+1];
    assert more[..|more|-1] == ps[..i] && more[|more|-1] == ps[i];
    forall a
      ensures FindPeer(more, a) == if ps[i].neighbor == a then Some(ps[i]) else FindPeer(ps[..i], a)
    {
    }
  }

  function Look(ns: Neighbors, a: IpAddr): Option<PeerConfig> {
    if a in ns then Some(ns[a]) else None
  }

  /** Additions, then removals. */
  function LookAfter(ns: Neighbors, add: seq<BgpPeer>, remove: seq<IpAddr>, gr: Option<nat>, a: IpAddr): Option<PeerConfig> {
    if a in remove then None
    else if FindPeer(add, a).Some? then Some(ToPeerConfig(FindPeer(add, a).value, gr))
    else Look(ns, a)
  }

  datatype RoutesConfig = RoutesConfig(local: NodeBgp, fullMesh: bool, enableIbgp: bool, gracefulRestart: Option<nat>)

  class NetworkRoutesController {
    const cfg: RoutesConfig
    const engine: BgpEngine
    const externalPeers: seq<PeerConfig>
    var currentPeers: seq<BgpPeer>
    var externalApplied: bool

    constructor (cfg: RoutesConfig, engine: BgpEngine, externalPeers: seq<PeerConfig>)
      ensures this.cfg == cfg && this.engine == engine && this.externalPeers == externalPeers
      ensures currentPeers == [] && !externalApplied
    {
      this.cfg, this.engine, this.externalPeers := cfg, engine, externalPeers;
      currentPeers, externalApplied := [], false;
    }

    /** `apply_external_peers`: once. */
    method ApplyExternalPeers() returns (added: nat)
      modifies this`externalApplied, engine
      ensures externalApplied && added == if old(externalApplied) then 0 else |externalPeers|
      ensures old(externalApplied) ==> engine.neighbors == old(engine.neighbors)
      ensures !old(externalApplied) ==> engine.neighbors == WithExternal(old(engine.neighbors), externalPeers)
    {
      if externalApplied {
        return 0;
      }
      for i := 0 to |externalPeers|
        invariant engine.neighbors == WithExternal(old(engine.neighbors), externalPeers[..i])
      {
        engine.AddPeer(externalPeers[i]);
        assert externalPeers[..i+1][..i] == externalPeers[..i];
      }
      assert externalPeers[..|externalPeers|] == externalPeers;
      externalApplied := true;
      added := |externalPeers|;
    }

    /** `reconcile`: the difference, recorded as current before it is applied. */
    method Reconcile(nodes: seq<NodeBgp>) returns (add: seq<BgpPeer>, remove: seq<IpAddr>)
      modifies this`currentPeers
      ensures currentPeers == Desired(cfg.local, nodes, cfg.fullMesh, cfg.enableIbgp)
      ensures (add, remove) == PeerDiff(old(currentPeers), currentPeers)
    {
      var desired := DeriveIbgpPeers(cfg.local, nodes, cfg.fullMesh, cfg.enableIbgp);
      var diff := PeerDiff(currentPeers, desired);
      add, remove := diff.0, diff.1;
      currentPeers := desired;
    }

    /** `reconcile_and_apply`. */
    method ReconcileAndApply(nodes: seq<NodeBgp>) returns (added: nat, removed: nat)
      modifies this`currentPeers, engine
      ensures currentPeers == Desired(cfg.local, nodes, cfg.fullMesh, cfg.enableIbgp)
      ensures PassedFrom(old(engine.neighbors), old(currentPeers), currentPeers, cfg.gracefulRestart, engine.neighbors)
    {
      var add, remove := Reconcile(nodes);
      ghost var now := currentPeers;
      for i := 0 to |add|
        invariant currentPeers == now
        invariant forall a :: Look(engine.neighbors, a) == LookAfter(old(engine.neighbors), add[..i], [], cfg.gracefulRestart, a)
      {
        ghost var before := engine.neighbors;
        engine.AddPeer(ToPeerConfig(add[i], cfg.gracefulRestart));
        FindPush(add, i);
        assert forall a :: Look(engine.neighbors, a) ==
                           if a == add[i].neighbor then Some(ToPeerConfig(add[i], cfg.gracefulRestart)) else Look(before, a);
      }
      assert add[..|add|] == add;
      for i := 0 to |remove|
        invariant currentPeers == now
        invariant forall a :: Look(engine.neighbors, a) == LookAfter(old(engine.neighbors), add, remove[..i], cfg.gracefulRestart, a)
      {
        ghost var before := engine.neighbors;
        engine.DeletePeer(remove[i]);
        assert remove[..i+1] == remove[..i] + [remove[i]];
        assert forall a :: a in remove[..i+1] <==> a in remove[..i] || a == remove[i];
        assert forall a :: Look(engine.neighbors, a) == if a == remove[i] then None else Look(before, a);
      }
      assert remove[..|remove|] == remove;
      added, removed := |add|, |remove|;
    }
  }

  function WithExternal(ns: Neighbors, ps: seq<PeerConfig>): Neighbors {
    if ps == [] then ns else WithExternal(ns, ps[..|ps|-1])[ps[|ps|-1].peer.neighbor := ps[|ps|-1]]
  }

  ghost predicate PassedFrom(ns: Neighbors, current: seq<BgpPeer>, desired: seq<BgpPeer>, gr: Option<nat>, after: Neighbors) {
    forall a :: Look(after, a) == LookAfter(ns, PeerDiff(current, desired).0, PeerDiff(current, desired).1, gr, a)
  }

  // ---- convergence ----------------------------------------------------------------------------------

  /** Neighbour addresses are distinct, as node addresses are. */
  ghost predicate DistinctNeighbors(ps: seq<BgpPeer>) {
    forall p, q :: p in ps && q in ps && p.neighbor == q.neighbor ==> p == q
  }

  lemma {:induction false} DistinctNodesDistinctPeers(local: NodeBgp, nodes: seq<NodeBgp>, fullMesh: bool, enableIbgp: bool)
    requires forall n, o :: n in nodes && o in nodes && n.ip == o.ip ==> n == o
    ensures DistinctNeighbors(Desired(local, nodes, fullMesh, enableIbgp))
  {
    var ps := Desired(local, nodes, fullMesh, enableIbgp);
    forall p, q | p in ps && q in ps && p.neighbor == q.neighbor
      ensures p == q
    {
      DerivedMembers(local, nodes, fullMesh, p);
      DerivedMembers(local, nodes, fullMesh, q);
    }
  }

  /** The engine's peers are the given iBGP ones, with their attributes, and `fixed` besides. */
  ghost predicate Engine(ns: Neighbors, fixed: Neighbors, ps: seq<BgpPeer>, gr: Option<nat>) {
    forall a :: Look(ns, a) == if HasNeighbor(ps, a) then Some(PeerConfig(FindPeer(ps, a).value, gr, None)) else Look(fixed, a)
  }

  /** No iBGP neighbour is also a fixed one. */
  ghost predicate Clear(fixed: Neighbors, ps: seq<BgpPeer>) {
    forall p :: p in ps ==> p.neighbor !in fixed
  }

  /** One pass takes the engine from the current peers to the desired ones: changed attributes included,
      external peers untouched. */
  lemma {:induction false} PassConverges(
    ns: Neighbors, fixed: Neighbors, current: seq<BgpPeer>, desired: seq<BgpPeer>, gr: Option<nat>, after: Neighbors)
    requires DistinctNeighbors(current) && DistinctNeighbors(desired) && Clear(fixed, current) && Clear(fixed, desired)
    requires Engine(ns, fixed, current, gr) && PassedFrom(ns, current, desired, gr, after)
    ensures Engine(after, fixed, desired, gr)
  {
    forall a
      ensures Look(after, a) == if HasNeighbor(desired, a) then Some(ToPeerConfig(FindPeer(desired, a).value, gr)) else Look(fixed, a)
    {
      PassConvergesAt(ns, fixed, current, desired, gr, after, a);
    }
  }

  lemma {:induction false} PassConvergesAt(
    ns: Neighbors, fixed: Neighbors, current: seq<BgpPeer>, desired: seq<BgpPeer>, gr: Option<nat>, after: Neighbors, a: IpAddr)
    requires DistinctNeighbors(current) && DistinctNeighbors(desired) && Clear(fixed, current) && Clear(fixed, desired)
    requires Engine(ns, fixed, current, gr) && PassedFrom(ns, current, desired, gr, after)
    ensures Look(after, a) == if HasNeighbor(desired, a) then Some(ToPeerConfig(FindPeer(desired, a).value, gr)) else Look(fixed, a)
  {
    var add := Absent(desired, current);
    assert Look(after, a) == LookAfter(ns, add, Gone(current, desired), gr, a);
    if HasNeighbor(desired, a) {
      var d := FindPeer(desired, a).value;
      if d in current {
        assert FindPeer(current, a) == Some(d);
        assert !HasNeighbor(add, a) by {
          assert forall p :: p in add && p.neighbor == a ==> p == d;
        }
      } else {
        assert d in add;
        assert FindPeer(add, a) == Some(d);
      }
    }
  }

  /** A run from a fresh controller, external peers in place: `peers` are the desired peers of its passes. */
  ghost predicate IsRun(cfg: RoutesConfig, engines: seq<Neighbors>, peers: seq<seq<BgpPeer>>, fixed: Neighbors) {
    && |engines| == |peers| && |peers| > 0 && peers[0] == [] && engines[0] == fixed
    && (forall i :: 0 <= i < |peers| ==> DistinctNeighbors(peers[i]) && Clear(fixed, peers[i]))
    && forall i :: 0 < i < |peers| ==> Pass(cfg, engines, peers, i)
  }

  ghost predicate Pass(cfg: RoutesConfig, engines: seq<Neighbors>, peers: seq<seq<BgpPeer>>, i: nat)
    requires 0 < i < |engines| && |engines| == |peers|
  {
    PassedFrom(engines[i-1], peers[i-1], peers[i], cfg.gracefulRestart, engines[i])
  }

  /** After every pass of a run the engine's neighbours are the derived iBGP peers and the external ones. */
  lemma {:induction false} RunsConverge(cfg: RoutesConfig, engines: seq<Neighbors>, peers: seq<seq<BgpPeer>>, fixed: Neighbors, n: nat)
    requires IsRun(cfg, engines, peers, fixed) && n < |peers|
    ensures Engine(engines[n], fixed, peers[n], cfg.gracefulRestart)
  {
    hide PassedFrom, DistinctNeighbors, Clear;
    if n > 0 {
      RunsConverge(cfg, engines, peers, fixed, n - 1);
      assert Pass(cfg, engines, peers, n);
      PassConverges(engines[n-1], fixed, peers[n-1], peers[n], cfg.gracefulRestart, engines[n]);
    }
  }

  /** The desired peers of each pass come from that pass's nodes: with distinct addresses, none an external peer's. */
  ghost predicate FromNodes(cfg: RoutesConfig, nodes: seq<NodeBgp>, peers: seq<BgpPeer>, fixed: Neighbors) {
    && peers == Desired(cfg.local, nodes, cfg.fullMesh, cfg.enableIbgp)
    && (forall n, o :: n in nodes && o in nodes && n.ip == o.ip ==> n == o)
    && (forall n :: n in nodes ==> n.ip !in fixed)
  }

  /** So the engine follows the nodes: after every pass it has the peers derived from them and the external ones. */
  lemma {:induction false} RunsFollowNodes(
    cfg: RoutesConfig, engines: seq<Neighbors>, nodes: seq<seq<NodeBgp>>, peers: seq<seq<BgpPeer>>, fixed: Neighbors, n: nat)
    requires |engines| == |peers| == |nodes| && 0 < n < |peers| && peers[0] == [] && engines[0] == fixed
    requires forall i :: 0 < i < |peers| ==> FromNodes(cfg, nodes[i], peers[i], fixed) && Pass(cfg, engines, peers, i)
    ensures Engine(engines[n], fixed, Desired(cfg.local, nodes[n], cfg.fullMesh, cfg.enableIbgp), cfg.gracefulRestart)
  {
    hide Pass, Engine, DistinctNeighbors;
    forall i | 0 <= i < |peers|
      ensures DistinctNeighbors(peers[i]) && Clear(fixed, peers[i])
    {
      if i == 0 {
        NoPeers(fixed);
      } else {
        NodesAreClear(cfg, nodes[i], peers[i], fixed);
      }
    }
    RunsConverge(cfg, engines, peers, fixed, n);
  }

  lemma {:induction false} NoPeers(fixed: Neighbors)
    ensures DistinctNeighbors([]) && Clear(fixed, [])
  {
  }

  lemma {:induction false} NodesAreClear(cfg: RoutesConfig, nodes: seq<NodeBgp>, peers: seq<BgpPeer>, fixed: Neighbors)
    requires FromNodes(cfg, nodes, peers, fixed)
    ensures DistinctNeighbors(peers) && Clear(fixed, peers)
  {
    hide DistinctNeighbors;
    DistinctNodesDistinctPeers(cfg.local, nodes, cfg.fullMesh, cfg.enableIbgp);
    forall p | p in peers
      ensures p.neighbor !in fixed
    {
      DerivedMembers(cfg.local, nodes, cfg.fullMesh, p);
    }
  }
}
