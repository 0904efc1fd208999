// What NetworkPolicies mean, stated without chains, sets or marks, and the proof that the
// compiled plan enforces it.

module Isolation {
  import opened Wrappers
  import opened Net
  import opened PolicyModel
  import opened Translate
  import opened RuleLang
  import opened Synth
  import opened PolicyMeaning
  import opened LiveSets
  import opened ChainMeaning
  import opened TopMeaning

  // ---- the reference semantics ----------------------------------------------------

  /** The packet's address on the policy's side, and the one its peers are matched against. */
  function Own(dir: Direction, pkt: Packet): IpAddr {
    if dir.Ingress? then pkt.dst else pkt.src
  }

  function Remote(dir: Direction, pkt: Packet): IpAddr {
    if dir.Ingress? then pkt.src else pkt.dst
  }

  /** Some container port of the pod has the name, the protocol and the number. */
  ghost predicate Listens(pod: Pod, name: string, proto: string, n: nat) {
    exists cp :: cp in pod.ports && cp.name == Some(name) && cp.protocol == proto && cp.port == n
  }

  /** A named port is resolved on the pod receiving the traffic: the selected pod for ingress; for egress
      a selected peer, or with no peers listed any pod of the policy's namespace. */
  ghost predicate NameOpen(
    pol: NetworkPolicy, dir: Direction, rule: Rule, pod: Pod, name: string, proto: string, pkt: Packet, world: World)
  {
    match dir
    case Ingress => Listens(pod, name, proto, pkt.dport)
    case Egress =>
      exists q :: q in world.pods && pkt.dst in q.ips && Listens(q, name, proto, pkt.dport) &&
                  if rule.peers == [] then q.namespace == pol.namespace
                  else exists peer :: peer in rule.peers && PeerSelects(peer, q, world.namespaces, pol.namespace)
  }

  ghost predicate PortAdmits(
    pol: NetworkPolicy, dir: Direction, rule: Rule, pod: Pod, port: PortSpec, pkt: Packet, world: World)
  {
    && pkt.proto == port.protocol
    && match port.port
       case All => true
       case Number(n) => pkt.dport == n
       case Name(name) => NameOpen(pol, dir, rule, pod, name, port.protocol, pkt, world)
  }

  ghost predicate RuleAdmits(pol: NetworkPolicy, dir: Direction, rule: Rule, pod: Pod, pkt: Packet, world: World) {
    && PeersAdmit(rule.peers, Remote(dir, pkt), world.pods, world.namespaces, pol.namespace)
    && (rule.ports == [] || exists port :: port in rule.ports && PortAdmits(pol, dir, rule, pod, port, pkt, world))
  }

  ghost predicate PolicyAdmits(pol: NetworkPolicy, dir: Direction, pod: Pod, pkt: Packet, world: World) {
    exists rule :: rule in (if dir.Ingress? then pol.ingress else pol.egress) && RuleAdmits(pol, dir, rule, pod, pkt, world)
  }

  /** The policy governs the direction and selects the pod. */
  predicate Isolates(pol: NetworkPolicy, dir: Direction, pod: Pod) {
    && (if dir.Ingress? then pol.hasIngress else pol.hasEgress)
    && pol.namespace == pod.namespace && SelectorMatches(pol.podSelector, pod.labels)
  }

  /** Some policy governing the direction selects the pod. */
  ghost predicate Isolated(pod: Pod, dir: Direction, world: World) {
    exists pol :: pol in world.policies && Isolates(pol, dir, pod)
  }

  ghost predicate Allowed(pod: Pod, dir: Direction, pkt: Packet, world: World) {
    exists pol :: pol in world.policies && Isolates(pol, dir, pod) && PolicyAdmits(pol, dir, pod, pkt, world)
  }

  ghost predicate Denies(pod: Pod, dir: Direction, pkt: Packet, world: World) {
    Isolated(pod, dir, world) && !Allowed(pod, dir, pkt, world)
  }

  /** A pod of this node the packet arrives at (ingress) or comes from (egress). */
  predicate LocalEnd(pod: Pod, dir: Direction, world: World, cfg: Config, pkt: Packet) {
    && pod in world.pods && pod.nodeName == cfg.node && !pod.hostNetwork
    && Own(dir, pkt) in pod.ips && Own(dir, pkt).family == cfg.family
  }

  // ---- hypotheses -----------------------------------------------------------------------

  /** A pod address is nobody else's; host-network pods may share their node's. */
  ghost predicate PodIpsUnique(world: World) {
    forall p, q, a :: p in world.pods && q in world.pods && a in p.ips && a in q.ips && !p.hostNetwork ==> p == q
  }

  ghost predicate AllRules(pol: NetworkPolicy, dir: Direction, r: Rule) {
    Governs(pol, dir) && r in DirRules(pol, dir)
  }

  /** No rule of the world loses addresses in the `nomatch` encoding. */
  ghost predicate ExceptsSharedEverywhere(world: World, family: Family) {
    forall pol, dir, r :: pol in world.policies && AllRules(pol, dir, r) ==> ExceptsShared(r.peers, family)
  }

  ghost predicate ExceptsInsideEverywhere(world: World) {
    forall pol, dir, r :: pol in world.policies && AllRules(pol, dir, r) ==> ExceptsInside(r.peers)
  }

  predicate OfFamily(cfg: Config, pkt: Packet) {
    pkt.src.family == cfg.family && pkt.dst.family == cfg.family
  }

  // ---- compiled rules against the reference ------------------------------------------------

  /** Whatever the rules admit, the compiled rule permits. */
  lemma {:induction false} AdmittedIsPermitted(ref: RuleRef, rule: Rule, pod: Pod, pkt: Packet, world: World)
    requires pkt.src.family == ref.family && pkt.dst.family == ref.family
    requires ExceptsShared(rule.peers, ref.family)
    requires pod in world.pods && Selects(ref.pol, pod) && Own(ref.dir, pkt) in pod.ips
    requires RuleAdmits(ref.pol, ref.dir, rule, pod, pkt, world)
    ensures RulePermits(ref, rule, world, pkt)
  {
    var r, remote := ResolveRule(ref, rule, world), Remote(ref.dir, pkt);
    ResolveExact(rule.peers, world.pods, world.namespaces, ref.pol.namespace, ref.family, remote);
    assert OnTarget(ref, world, pkt);
    if rule.ports != [] {
      var port :| port in rule.ports && PortAdmits(ref.pol, ref.dir, rule, pod, port, pkt, world);
      if port.port.Name? {
        NameOpenIsHit(ref, rule, pod, port.port.name, port.protocol, pkt, world);
      }
      assert PortPermits(ref.dir, EntriesAdmit(r, remote), true, Receivers(ref, r, world.pods), port, ref.family, pkt);
    }
  }

  lemma {:induction false} ListensIff(pod: Pod, name: string, proto: string, n: nat)
    ensures Listens(pod, name, proto, n) <==> ExposesAt(pod.ports, name, proto, n)
  {
    if ExposesAt(pod.ports, name, proto, n) {
      var cp :| cp in pod.ports && PortNamed(cp, name, proto) && cp.port == n;
      assert Listens(pod, name, proto, n);
    }
  }

  lemma {:induction false} NameOpenIsHit(ref: RuleRef, rule: Rule, pod: Pod, name: string, proto: string, pkt: Packet, world: World)
    requires pkt.dst.family == ref.family
    requires pod in world.pods && Selects(ref.pol, pod) && Own(ref.dir, pkt) in pod.ips
    requires NameOpen(ref.pol, ref.dir, rule, pod, name, proto, pkt, world)
    ensures NamedHit(Receivers(ref, ResolveRule(ref, rule, world), world.pods), name, proto, ref.family, pkt)
  {
    hide Listens, ExposesAt;
    forall q: Pod
      ensures Listens(q, name, proto, pkt.dport) <==> ExposesAt(q.ports, name, proto, pkt.dport)
    {
      ListensIff(q, name, proto, pkt.dport);
    }
    var r := ResolveRule(ref, rule, world);
    if ref.dir.Ingress? {
      assert pod in Receivers(ref, r, world.pods);
    } else {
      var q :| q in world.pods && pkt.dst in q.ips && ExposesAt(q.ports, name, proto, pkt.dport) &&
               if rule.peers == [] then q.namespace == ref.pol.namespace
               else exists peer :: peer in rule.peers && PeerSelects(peer, q, world.namespaces, ref.pol.namespace);
      if rule.peers != [] {
        var peer :| peer in rule.peers && PeerSelects(peer, q, world.namespaces, ref.pol.namespace);
        SelectorIpsExact(rule.peers, world.pods, world.namespaces, ref.pol.namespace, ref.family, pkt.dst);
        assert SelectorsAdmit(rule.peers, pkt.dst, world.pods, world.namespaces, ref.pol.namespace);
        assert pkt.dst in FamilyIps(q.ips, ref.family) && pkt.dst in r.ips;
      }
      assert q in Receivers(ref, r, world.pods);
    }
  }

  /** Whatever the compiled rule permits, the rule admits for some pod the policy selects at that end. */
  lemma {:induction false} PermittedIsAdmitted(ref: RuleRef, rule: Rule, pkt: Packet, world: World) returns (pod: Pod)
    requires pkt.src.family == ref.family && pkt.dst.family == ref.family
    requires ExceptsInside(rule.peers) && PodIpsUnique(world)
    requires RulePermits(ref, rule, world, pkt)
    ensures pod in world.pods && Selects(ref.pol, pod) && Own(ref.dir, pkt) in pod.ips
    ensures RuleAdmits(ref.pol, ref.dir, rule, pod, pkt, world)
  {
    var r, remote := ResolveRule(ref, rule, world), Remote(ref.dir, pkt);
    ResolveExact(rule.peers, world.pods, world.namespaces, ref.pol.namespace, ref.family, remote);
    if rule.ports == [] {
      pod :| pod in world.pods && Selects(ref.pol, pod) && Own(ref.dir, pkt) in pod.ips;
    } else {
      var receivers := Receivers(ref, r, world.pods);
      var port :| port in rule.ports
                  && PortPermits(ref.dir, EntriesAdmit(r, remote), OnTarget(ref, world, pkt), receivers, port, ref.family, pkt);
      if port.port.Name? {
        pod := HitIsNameOpen(ref, rule, port.port.name, port.protocol, pkt, world);
      } else {
        pod :| pod in world.pods && Selects(ref.pol, pod) && Own(ref.dir, pkt) in pod.ips;
      }
      assert PortAdmits(ref.pol, ref.dir, rule, pod, port, pkt, world);
    }
  }

  lemma {:induction false} HitIsNameOpen(ref: RuleRef, rule: Rule, name: string, proto: string, pkt: Packet, world: World)
    returns (pod: Pod)
    requires PodIpsUnique(world) && pkt.dst.family == ref.family
    requires ref.dir.Egress? ==> OnTarget(ref, world, pkt)
    requires NamedHit(Receivers(ref, ResolveRule(ref, rule, world), world.pods), name, proto, ref.family, pkt)
    ensures pod in world.pods && Selects(ref.pol, pod) && Own(ref.dir, pkt) in pod.ips
    ensures NameOpen(ref.pol, ref.dir, rule, pod, name, proto, pkt, world)
    ensures ref.dir.Egress? ==> PeersAdmit(rule.peers, pkt.dst, world.pods, world.namespaces, ref.pol.namespace)
  {
    hide Listens, ExposesAt;
    var r := ResolveRule(ref, rule, world);
    var q :| q in Receivers(ref, r, world.pods) && pkt.dst in q.ips && ExposesAt(q.ports, name, proto, pkt.dport);
    ListensIff(q, name, proto, pkt.dport);
    if ref.dir.Ingress? {
      pod := q;
    } else {
      pod :| pod in world.pods && Selects(ref.pol, pod) && pkt.src in pod.ips;
      if rule.peers != [] {
        var a :| a in FamilyIps(q.ips, ref.family) && a in r.ips;
        SelectorIpsExact(rule.peers, world.pods, world.namespaces, ref.pol.namespace, ref.family, a);
        var peer, p :| peer in rule.peers && p in world.pods && PeerSelects(peer, p, world.namespaces, ref.pol.namespace) && a in p.ips;
        assert p == q;
        assert SelectorsAdmit(rule.peers, pkt.dst, world.pods, world.namespaces, ref.pol.namespace);
      }
    }
  }

  // ---- policies against the reference --------------------------------------------------------

  lemma {:induction false} AdmittingPolicyPermits(pol: NetworkPolicy, dir: Direction, pod: Pod, pkt: Packet, world: World, cfg: Config)
    requires OfFamily(cfg, pkt) && ExceptsSharedEverywhere(world, cfg.family)
    requires pol in world.policies && Governs(pol, dir)
    requires pod in world.pods && Selects(pol, pod) && Own(dir, pkt) in pod.ips
    requires PolicyAdmits(pol, dir, pod, pkt, world)
    ensures DirPermits(pol, dir, world, cfg.family, pkt)
  {
    var rule :| rule in DirRules(pol, dir) && RuleAdmits(pol, dir, rule, pod, pkt, world);
    var i :| 0 <= i < |DirRules(pol, dir)| && DirRules(pol, dir)[i] == rule;
    assert AllRules(pol, dir, rule);
    AdmittedIsPermitted(RuleRef(pol, dir, i, cfg.family), rule, pod, pkt, world);
  }

  lemma {:induction false} PermittingPolicyAdmits(pol: NetworkPolicy, dir: Direction, pkt: Packet, world: World, cfg: Config)
    returns (pod: Pod)
    requires OfFamily(cfg, pkt) && ExceptsInsideEverywhere(world) && PodIpsUnique(world)
    requires pol in world.policies && Governs(pol, dir)
    requires DirPermits(pol, dir, world, cfg.family, pkt)
    ensures pod in world.pods && Selects(pol, pod) && Own(dir, pkt) in pod.ips
    ensures PolicyAdmits(pol, dir, pod, pkt, world)
  {
    var i :| 0 <= i < |DirRules(pol, dir)| && RulePermits(RuleRef(pol, dir, i, cfg.family), DirRules(pol, dir)[i], world, pkt);
    assert AllRules(pol, dir, DirRules(pol, dir)[i]);
    pod := PermittedIsAdmitted(RuleRef(pol, dir, i, cfg.family), DirRules(pol, dir)[i], pkt, world);
  }

  // ---- no over-blocking -------------------------------------------------------------------

  lemma {:induction false} SelectingIsolates(pod: Pod, world: World)
    ensures HasIngress(Selecting(world.policies, pod)) <==> Isolated(pod, Ingress, world)
    ensures HasEgress(Selecting(world.policies, pod)) <==> Isolated(pod, Egress, world)
  {
    var sel := Selecting(world.policies, pod);
    if Isolated(pod, Ingress, world) {
      var pol :| pol in world.policies && Isolates(pol, Ingress, pod);
      assert pol in sel;
    }
    if Isolated(pod, Egress, world) {
      var pol :| pol in world.policies && Isolates(pol, Egress, pod);
      assert pol in sel;
    }
  }

  /** Being let through in the reference, in one direction that applies, is enough to be marked. */
  lemma {:induction false} NotDeniedIsMarked(pod: Pod, dir: Direction, pkt: Packet, world: World, cfg: Config)
    requires NamesUnique(world) && NamedPortsAgree(world, cfg.family) && OfFamily(cfg, pkt) && ExceptsSharedEverywhere(world, cfg.family)
    requires LocalEnd(pod, dir, world, cfg, pkt) && !Denies(pod, dir, pkt, world)
    ensures PodMarks(pod, world, cfg, pkt)
  {
    hide LivePermits, NamesUnique, NamedPortsAgree, PolicyAdmits, DirPermits;
    var policies, a := Selecting(world.policies, pod), Own(dir, pkt);
    SelectingIsolates(pod, world);
    if Allowed(pod, dir, pkt, world) {
      var pol :| pol in world.policies && Isolates(pol, dir, pod) && PolicyAdmits(pol, dir, pod, pkt, world);
      AdmittingPolicyPermits(pol, dir, pod, pkt, world, cfg);
      assert pol in policies;
      assert PolicyPermits(pol, world, cfg.family, pkt);
      LivePermitsMeans(pol, world, cfg, pkt);
      assert GateOpen(pol, a, pkt) && LivePermits(pol, world, cfg, pkt);
    }
    assert AddressMarks(a, policies, world, cfg, pkt);
  }

  /** If every direction that applies to a local endpoint allows the packet, no chain rejects it. No
      hypothesis on shared addresses, both-direction policies, or packets between two local pods. */
  lemma {:induction false} NoOverBlocking(world: World, cfg: Config, c: Chain, pkt: Packet, mark: Mark)
    requires NamesUnique(world) && NamedPortsAgree(world, cfg.family) && ExceptsSharedEverywhere(world, cfg.family)
    requires OfFamily(cfg, pkt) && Screened(world, cfg, pkt) && Routed(c) && 16 !in mark && !cfg.defaultDeny
    requires forall pod, dir :: LocalEnd(pod, dir, world, cfg, pkt) ==> !Denies(pod, dir, pkt, world)
    ensures Verdict(Compile(world, cfg), c, pkt, mark).Accepted? || Verdict(Compile(world, cfg), c, pkt, mark).Fell?
  {
    hide Compile, Screened, NamesUnique, NamedPortsAgree, Denies, PodMarks;
    TopExact(world, cfg, c, pkt, mark);
    if pod :| Stops(pod, world, cfg, pkt) {
      var dir := if pkt.dst in FamilyIps(pod.ips, cfg.family) then Ingress else Egress;
      NotDeniedIsMarked(pod, dir, pkt, world, cfg);
    }
  }

  // ---- exactness -----------------------------------------------------------------------

  function Opposite(dir: Direction): Direction {
    if dir.Ingress? then Egress else Ingress
  }

  /** The one way a denied packet is still marked: a policy governing both directions, whose chain is
      entered without an address gate, selects the other end too and admits the packet there. */
  ghost predicate CrossMarked(pod: Pod, dir: Direction, pkt: Packet, world: World) {
    exists pol, other :: pol in world.policies && pol.hasIngress && pol.hasEgress && Selects(pol, pod)
                         && other in world.pods && Selects(pol, other) && Own(Opposite(dir), pkt) in other.ips
                         && PolicyAdmits(pol, Opposite(dir), other, pkt, world)
  }

  /** The pod is at one end of the packet only. */
  predicate OneEnded(pod: Pod, cfg: Config, pkt: Packet) {
    !(pkt.src in FamilyIps(pod.ips, cfg.family) && pkt.dst in FamilyIps(pod.ips, cfg.family))
  }

  lemma {:induction false} CrossMarkedIsMarked(pod: Pod, dir: Direction, pkt: Packet, world: World, cfg: Config)
    requires NamesUnique(world) && NamedPortsAgree(world, cfg.family) && OfFamily(cfg, pkt) && ExceptsSharedEverywhere(world, cfg.family)
    requires LocalEnd(pod, dir, world, cfg, pkt) && CrossMarked(pod, dir, pkt, world)
    ensures PodMarks(pod, world, cfg, pkt)
  {
    hide LivePermits, NamesUnique, NamedPortsAgree, PolicyAdmits, DirPermits;
    var pol, other :| pol in world.policies && pol.hasIngress && pol.hasEgress && Selects(pol, pod)
                      && other in world.pods && Selects(pol, other) && Own(Opposite(dir), pkt) in other.ips
                      && PolicyAdmits(pol, Opposite(dir), other, pkt, world);
    AdmittingPolicyPermits(pol, Opposite(dir), other, pkt, world, cfg);
    var policies, a := Selecting(world.policies, pod), Own(dir, pkt);
    assert pol in policies && PolicyPermits(pol, world, cfg.family, pkt);
    LivePermitsMeans(pol, world, cfg, pkt);
    assert GateOpen(pol, a, pkt) && LivePermits(pol, world, cfg, pkt);
    assert AddressMarks(a, policies, world, cfg, pkt);
  }

  lemma {:induction false} MarkedIsNotDenied(pod: Pod, dir: Direction, pkt: Packet, world: World, cfg: Config)
    requires NamesUnique(world) && NamedPortsAgree(world, cfg.family)
    requires OfFamily(cfg, pkt) && ExceptsInsideEverywhere(world) && PodIpsUnique(world)
    requires LocalEnd(pod, dir, world, cfg, pkt) && OneEnded(pod, cfg, pkt)
    requires PodMarks(pod, world, cfg, pkt)
    ensures !Denies(pod, dir, pkt, world) || CrossMarked(pod, dir, pkt, world)
  {
    hide LivePermits, NamesUnique, NamedPortsAgree, DirPermits;
    var policies := Selecting(world.policies, pod);
    SelectingIsolates(pod, world);
    var a :| a in FamilyIps(pod.ips, cfg.family) && AddressMarks(a, policies, world, cfg, pkt);
    if pol :| pol in policies && GateOpen(pol, a, pkt) && LivePermits(pol, world, cfg, pkt) {
      LivePermitsMeans(pol, world, cfg, pkt);
      if Governs(pol, dir) && DirPermits(pol, dir, world, cfg.family, pkt) {
        var p := PermittingPolicyAdmits(pol, dir, pkt, world, cfg);
        assert p == pod;
        assert Allowed(pod, dir, pkt, world);
      } else {
        assert pol.hasIngress && pol.hasEgress;
        var other := PermittingPolicyAdmits(pol, Opposite(dir), pkt, world, cfg);
        assert CrossMarked(pod, dir, pkt, world);
      }
    }
  }

  /** Everything a packet of the checked kind must satisfy for the plan to be exact on it. */
  ghost predicate Checkable(world: World, cfg: Config, pkt: Packet) {
    && NamesUnique(world) && NamedPortsAgree(world, cfg.family) && PodIpsUnique(world)
    && ExceptsSharedEverywhere(world, cfg.family) && ExceptsInsideEverywhere(world)
    && OfFamily(cfg, pkt) && Screened(world, cfg, pkt)
    && (forall pod :: pod in world.pods ==> OneEnded(pod, cfg, pkt))
  }

  /** Some local endpoint denies the packet, and no both-direction policy marks it from the other end. */
  ghost predicate Refuses(world: World, cfg: Config, pkt: Packet) {
    exists pod, dir :: LocalEnd(pod, dir, world, cfg, pkt) && Denies(pod, dir, pkt, world) && !CrossMarked(pod, dir, pkt, world)
  }

  /** The pod chains stop exactly what the policies refuse. */
  lemma {:induction false} StopsIffRefused(world: World, cfg: Config, pkt: Packet)
    requires Checkable(world, cfg, pkt)
    ensures (exists pod :: Stops(pod, world, cfg, pkt)) <==> Refuses(world, cfg, pkt)
  {
    hide Screened, NamesUnique, NamedPortsAgree, Denies, CrossMarked, PodMarks, PodIpsUnique;
    if pod :| Stops(pod, world, cfg, pkt) {
      var dir := if pkt.dst in FamilyIps(pod.ips, cfg.family) then Ingress else Egress;
      assert LocalEnd(pod, dir, world, cfg, pkt);
      if !Denies(pod, dir, pkt, world) {
        NotDeniedIsMarked(pod, dir, pkt, world, cfg);
      }
      if CrossMarked(pod, dir, pkt, world) {
        CrossMarkedIsMarked(pod, dir, pkt, world, cfg);
      }
    }
    if pod, dir :| LocalEnd(pod, dir, world, cfg, pkt) && Denies(pod, dir, pkt, world) && !CrossMarked(pod, dir, pkt, world) {
      if PodMarks(pod, world, cfg, pkt) {
        MarkedIsNotDenied(pod, dir, pkt, world, cfg);
      }
      DeniedIsProgrammed(pod, dir, pkt, world, cfg);
      assert Stops(pod, world, cfg, pkt);
    }
  }

  /** Meaning preservation, exactly: FORWARD rejects the packet iff some local endpoint denies it and no
      both-direction policy marks it from the other end. */
  lemma {:induction false} RejectsExactly(world: World, cfg: Config, c: Chain, pkt: Packet, mark: Mark)
    requires Checkable(world, cfg, pkt) && Routed(c) && 16 !in mark && !cfg.defaultDeny
    ensures Verdict(Compile(world, cfg), c, pkt, mark).Rejected? <==> Refuses(world, cfg, pkt)
    ensures var o := Verdict(Compile(world, cfg), c, pkt, mark);
            o.Rejected? || o.Accepted? || o.Fell?
  {
    hide Compile, Screened, NamesUnique, NamedPortsAgree, Stops, Judges, Refuses, PodIpsUnique;
    TopExact(world, cfg, c, pkt, mark);
    StopsIffRefused(world, cfg, pkt);
  }

  lemma {:induction false} DeniedIsProgrammed(pod: Pod, dir: Direction, pkt: Packet, world: World, cfg: Config)
    requires LocalEnd(pod, dir, world, cfg, pkt) && Denies(pod, dir, pkt, world)
    ensures Programmed(pod, world, cfg) && Touches(pod, cfg, pkt)
  {
    var pol :| pol in world.policies && Isolates(pol, dir, pod);
    assert pol in Selecting(world.policies, pod);
  }

  /** No policy governing both directions selects a pod at each end of the packet. */
  ghost predicate NoPolicyOnBothEnds(world: World, pkt: Packet) {
    forall pol, p, q ::
      (pol in world.policies && pol.hasIngress && pol.hasEgress && p in world.pods && q in world.pods
       && Selects(pol, p) && Selects(pol, q) && pkt.src in p.ips)
      ==> pkt.dst !in q.ips
  }

  /** Meaning preservation: the plan rejects exactly what the policies deny. */
  lemma {:induction false} MeaningPreserved(world: World, cfg: Config, c: Chain, pkt: Packet, mark: Mark)
    requires Checkable(world, cfg, pkt) && NoPolicyOnBothEnds(world, pkt) && Routed(c) && 16 !in mark && !cfg.defaultDeny
    ensures Verdict(Compile(world, cfg), c, pkt, mark).Rejected? <==>
            exists pod, dir :: LocalEnd(pod, dir, world, cfg, pkt) && Denies(pod, dir, pkt, world)
  {
    hide Compile, Checkable, Denies, PolicyAdmits;
    RejectsExactly(world, cfg, c, pkt, mark);
    forall pod, dir | LocalEnd(pod, dir, world, cfg, pkt)
      ensures !CrossMarked(pod, dir, pkt, world)
    {
      assert Own(dir, pkt) in pod.ips;
    }
  }

  /** A new TCP, UDP or SCTP packet that did not originate on the node is never decided early. */
  lemma {:induction false} NewFlowsAreScreened(world: World, cfg: Config, pkt: Packet)
    requires pkt.state == New && !pkt.srcLocal
    requires pkt.proto == "tcp" || pkt.proto == "udp" || pkt.proto == "sctp"
    ensures Screened(world, cfg, pkt)
  {
    assert "icmp"[0] == "icmpv6"[0] == 'i' && pkt.proto[0] != 'i';
  }

  // ---- default deny ----------------------------------------------------------------------

  /** With default-deny on, a packet survives FORWARD and OUTPUT exactly when no local pod stops it and
      every endpoint inside a pod range is a programmed pod address. */
  lemma {:induction false} DefaultDenySurvival(world: World, cfg: Config, c: Chain, pkt: Packet, mark: Mark)
    requires NamesUnique(world) && Screened(world, cfg, pkt)
    requires OfFamily(cfg, pkt) && Routed(c) && 16 !in mark && 17 !in mark && cfg.defaultDeny
    ensures var o := Verdict(Compile(world, cfg), c, pkt, mark);
            (o.Accepted? || o.Fell?) <==>
            && (forall pod :: !Stops(pod, world, cfg, pkt))
            && (forall n :: n in cfg.podCidrs && Contains(n, pkt.src) ==> pkt.src in ProgrammedIps(world.pods, world, cfg))
            && (forall n :: n in cfg.podCidrs && Contains(n, pkt.dst) ==> pkt.dst in ProgrammedIps(world.pods, world, cfg))
    ensures var o := Verdict(Compile(world, cfg), c, pkt, mark);
            (o.Accepted? || o.Fell?) && (exists n :: n in cfg.podCidrs && Inside(n, pkt))
            ==> o.Accepted? && exists pod :: Judges(pod, world, cfg, pkt) && PodMarks(pod, world, cfg, pkt)
  {
    hide Compile, Screened, NamesUnique, PodMarks, Programmed;
    TopExact(world, cfg, c, pkt, mark);
    var cidrs, programmed := FamilyNets(cfg.podCidrs, cfg.family), ProgrammedIps(world.pods, world, cfg);
    assert forall n :: n in cfg.podCidrs && Inside(n, pkt) ==> n in cidrs;
    if n :| n in cidrs && Inside(n, pkt) && !Unprogrammed(n, programmed, pkt) {
      var e := if Contains(n, pkt.src) then pkt.src else pkt.dst;
      var pod :| pod in world.pods && e in pod.ips && Programmed(pod, world, cfg) && e.family == cfg.family;
      assert Judges(pod, world, cfg, pkt);
      assert !Stops(pod, world, cfg, pkt) ==> PodMarks(pod, world, cfg, pkt);
    }
  }

  /** The address belongs to a pod of this node that some policy isolates, in either direction. */
  ghost predicate Guarded(world: World, cfg: Config, a: IpAddr) {
    exists pod :: && pod in world.pods && pod.nodeName == cfg.node && !pod.hostNetwork && a in pod.ips
                  && (Isolated(pod, Ingress, world) || Isolated(pod, Egress, world))
  }

  lemma {:induction false} ProgrammedIff(pod: Pod, world: World, cfg: Config)
    ensures Programmed(pod, world, cfg) <==>
            && pod.nodeName == cfg.node && !pod.hostNetwork && (exists a :: a in pod.ips && a.family == cfg.family)
            && (Isolated(pod, Ingress, world) || Isolated(pod, Egress, world))
  {
    SelectingIsolates(pod, world);
    var ips, policies := FamilyIps(pod.ips, cfg.family), Selecting(world.policies, pod);
    assert ips != [] ==> ips[0] in ips;
    assert policies != [] ==> policies[0] in policies && Applies(policies[0]);
  }

  lemma {:induction false} GuardedIff(world: World, cfg: Config, a: IpAddr)
    requires a.family == cfg.family
    ensures a in ProgrammedIps(world.pods, world, cfg) <==> Guarded(world, cfg, a)
  {
    hide Programmed, Isolated;
    forall pod
      ensures Programmed(pod, world, cfg) <==>
              && pod.nodeName == cfg.node && !pod.hostNetwork && (exists a :: a in pod.ips && a.family == cfg.family)
              && (Isolated(pod, Ingress, world) || Isolated(pod, Egress, world))
    {
      ProgrammedIff(pod, world, cfg);
    }
  }

  /** With default-deny on, a packet survives exactly when the policies do not refuse it and every endpoint
      inside a pod range is an isolated pod of this node; inside a range it is then accepted. */
  lemma {:induction false} DefaultDenyExact(world: World, cfg: Config, c: Chain, pkt: Packet, mark: Mark)
    requires Checkable(world, cfg, pkt) && Routed(c) && 16 !in mark && 17 !in mark && cfg.defaultDeny
    ensures var o := Verdict(Compile(world, cfg), c, pkt, mark);
            (o.Accepted? || o.Fell?) <==>
            && !Refuses(world, cfg, pkt)
            && (forall n :: n in cfg.podCidrs && Contains(n, pkt.src) ==> Guarded(world, cfg, pkt.src))
            && (forall n :: n in cfg.podCidrs && Contains(n, pkt.dst) ==> Guarded(world, cfg, pkt.dst))
    ensures var o := Verdict(Compile(world, cfg), c, pkt, mark);
            (o.Accepted? || o.Fell?) && (exists n :: n in cfg.podCidrs && (Contains(n, pkt.src) || Contains(n, pkt.dst)))
            ==> o.Accepted? && (Guarded(world, cfg, pkt.src) || Guarded(world, cfg, pkt.dst))
  {
    hide Compile, Screened, NamesUnique, NamedPortsAgree, PodMarks, Programmed, Refuses, Stops, Judges, PodIpsUnique, Contains, ProgrammedIps,
         Guarded;
    DefaultDenySurvival(world, cfg, c, pkt, mark);
    StopsIffRefused(world, cfg, pkt);
    GuardedIff(world, cfg, pkt.src);
    GuardedIff(world, cfg, pkt.dst);
  }

  // ---- where exactness fails: a policy governing both directions ----------------------------

  const EVERYTHING := LabelSelector(map[], [])
  const SENDER := Pod("default", "a", map[], [Ip(V4, 1)], "far", false, [])
  const RECEIVER := Pod("default", "b", map[], [Ip(V4, 2)], "near", false, [])
  /** Isolates every pod of its namespace: nothing in, anything out. */
  const NOTHING_IN_ANYTHING_OUT := NetworkPolicy("default", "p", EVERYTHING, true, true, [], [Rule([], [])])
  const SMALL_WORLD := World([NOTHING_IN_ANYTHING_OUT], [SENDER, RECEIVER], [])
  const NEAR_NODE := Config("near", V4, "kr", false, [], [], None)
  const FLOW := Packet(Ip(V4, 1), Ip(V4, 2), "tcp", 80, "", New, false, false, false)

  lemma {:induction false} SmallWorldFacts()
    ensures SMALL_WORLD.pods[0] == SENDER && SMALL_WORLD.pods[1] == RECEIVER && |SMALL_WORLD.pods| == 2
    ensures SMALL_WORLD.policies[0] == NOTHING_IN_ANYTHING_OUT && |SMALL_WORLD.policies| == 1
    ensures forall pod: Pod :: pod in SMALL_WORLD.pods <==> pod == SENDER || pod == RECEIVER
    ensures forall pol: NetworkPolicy :: pol in SMALL_WORLD.policies <==> pol == NOTHING_IN_ANYTHING_OUT
    ensures Selects(NOTHING_IN_ANYTHING_OUT, SENDER) && Selects(NOTHING_IN_ANYTHING_OUT, RECEIVER)
  {
  }

  lemma {:induction false} SmallWorldCheckable()
    ensures Checkable(SMALL_WORLD, NEAR_NODE, FLOW)
  {
    hide NamedPortsAgree, Screened, SelectorMatches;
    SmallWorldFacts();
    SinglePortsAgree(SMALL_WORLD, V4);
    NewFlowsAreScreened(SMALL_WORLD, NEAR_NODE, FLOW);
    assert forall pol, dir, r :: pol in SMALL_WORLD.policies && AllRules(pol, dir, r) ==> r.peers == [];
  }

  /** The packet is denied at its receiver, and the compiled plan lets it through: the policy's own egress
      rule marks it in the receiver's chain. */
  lemma {:induction false} BothDirectionPolicyLeaks()
    ensures Checkable(SMALL_WORLD, NEAR_NODE, FLOW)
    ensures LocalEnd(RECEIVER, Ingress, SMALL_WORLD, NEAR_NODE, FLOW) && Denies(RECEIVER, Ingress, FLOW, SMALL_WORLD)
    ensures !Verdict(Compile(SMALL_WORLD, NEAR_NODE), RouterForward, FLOW, {}).Rejected?
  {
    SmallWorldFacts();
    SmallWorldCheckable();
    hide Compile, Checkable, Selects, SelectorMatches;
    assert Isolates(NOTHING_IN_ANYTHING_OUT, Ingress, RECEIVER);
    assert Actionable(RECEIVER, NEAR_NODE) && Ip(V4, 2) in FamilyIps(RECEIVER.ips, V4);
    RejectsExactly(SMALL_WORLD, NEAR_NODE, RouterForward, FLOW, {});
    var rule := Rule([], []);
    assert rule in DirRules(NOTHING_IN_ANYTHING_OUT, Egress) by {
      assert NOTHING_IN_ANYTHING_OUT.egress[0] == rule;
    }
    assert RuleAdmits(NOTHING_IN_ANYTHING_OUT, Egress, rule, SENDER, FLOW, SMALL_WORLD);
    assert PolicyAdmits(NOTHING_IN_ANYTHING_OUT, Egress, SENDER, FLOW, SMALL_WORLD);
    assert CrossMarked(RECEIVER, Ingress, FLOW, SMALL_WORLD);
    forall pod, dir | LocalEnd(pod, dir, SMALL_WORLD, NEAR_NODE, FLOW)
      ensures pod == RECEIVER && dir == Ingress
    {
    }
  }
}
