// The firewall compiler: NetworkPolicies, pods and namespaces to ipsets, chains and rules.
// The first half says what each part of the plan is; the methods of FirewallPlan build it.

module Synth {
  import opened Wrappers
  import opened Net
  import opened PolicyModel
  import opened Translate
  import opened RuleLang

  datatype Config = Config(
    node: string,
    family: Family,
    syncVersion: string,
    defaultDeny: bool,
    podCidrs: seq<IpNet>,
    serviceRanges: seq<IpNet>,
    nodePorts: Option<(nat, nat)>)

  // ---- policy chains ---------------------------------------------------------

  /** What one direction of a policy adds: ipsets, and match lists each of which permits a packet. */
  datatype Emission = Emission(sets: seq<IpsetPlan>, permits: seq<seq<Match>>) {
    function Then(next: Emission): Emission {
      Emission(sets + next.sets, permits + next.permits)
    }
  }

  const NOTHING := Emission([], [])

  /** Emissions one after the other. */
  function Concat(es: seq<Emission>): Emission {
    if es == [] then NOTHING else Concat(es[..|es|-1]).Then(es[|es|-1])
  }

  lemma {:induction false} ConcatMembers(es: seq<Emission>, p: seq<Match>, s: IpsetPlan)
    ensures p in Concat(es).permits <==> exists i :: 0 <= i < |es| && p in es[i].permits
    ensures s in Concat(es).sets <==> exists i :: 0 <= i < |es| && s in es[i].sets
  {
    if es != [] {
      ConcatMembers(es[..|es|-1], p, s);
    }
  }

  /** The MARK and RETURN pair of `push_policy_verdict`. */
  function Permit(pchain: Chain, ms: seq<Match>): seq<Line> {
    [Line(pchain, ms, SetXmark(MATCHED, MATCHED)), Line(pchain, ms + [MarkIs(MATCHED, MATCHED)], Return)]
  }

  function PermitLines(pchain: Chain, permits: seq<seq<Match>>): seq<Line> {
    if permits == [] then [] else Permit(pchain, permits[0]) + PermitLines(pchain, permits[1..])
  }

  lemma {:induction false} PermitLinesAppend(pchain: Chain, a: seq<seq<Match>>, b: seq<seq<Match>>)
    ensures PermitLines(pchain, a + b) == PermitLines(pchain, a) + PermitLines(pchain, b)
  {
    if a == [] {
      assert a + b == b;
    } else {
      PermitLinesAppend(pchain, a[1..], b);
      assert (a + b)[1..] == a[1..] + b;
    }
  }

  /** Where a rule sits: its policy, direction, index and family. */
  datatype RuleRef = RuleRef(pol: NetworkPolicy, dir: Direction, rule: nat, family: Family) {
    function SetName(kind: SetKind): SetName {
      PolicySet(pol.namespace, pol.name, kind, family)
    }

    function TargetMatch(): seq<Match> {
      [InSet(SetName(Targets(dir)), if dir.Ingress? then Dst else Src)]
    }

    function PeerSide(): Side {
      if dir.Ingress? then Src else Dst
    }
  }

  function SelectedIps(pol: NetworkPolicy, pods: seq<Pod>, family: Family): set<IpAddr> {
    set p, a | p in pods && a in p.ips && Selects(pol, p) && a.family == family :: a
  }

  function PeerSets(ref: RuleRef, r: ResolvedPeers): seq<IpsetPlan> {
    if r.matchAll then [] else
      (if r.ips != {} then [IpsetPlan(ref.SetName(PeerPods(ref.dir, ref.rule)), ref.family, HashIp(r.ips))] else [])
      + (if r.nets != [] then [IpsetPlan(ref.SetName(PeerBlocks(ref.dir, ref.rule)), ref.family, HashNet(r.nets))] else [])
  }

  function PeerMatches(ref: RuleRef, r: ResolvedPeers): seq<seq<Match>> {
    if r.matchAll then [[]] else
      (if r.ips != {} then [[InSet(ref.SetName(PeerPods(ref.dir, ref.rule)), ref.PeerSide())]] else [])
      + (if r.nets != [] then [[InSet(ref.SetName(PeerBlocks(ref.dir, ref.rule)), ref.PeerSide())]] else [])
  }

  /** A pod whose named ports a rule resolves against: the receivers of the traffic. */
  predicate IsReceiver(ref: RuleRef, r: ResolvedPeers, pod: Pod) {
    match ref.dir
    case Ingress => Selects(ref.pol, pod)
    case Egress =>
      if r.matchAll then pod.namespace == ref.pol.namespace
      else exists a | a in FamilyIps(pod.ips, ref.family) :: a in r.ips
  }

  function Receivers(ref: RuleRef, r: ResolvedPeers, pods: seq<Pod>): (rs: seq<Pod>)
    ensures forall p :: p in rs <==> p in pods && IsReceiver(ref, r, p)
  {
    if pods == [] then [] else
      (if IsReceiver(ref, r, pods[0]) then [pods[0]] else []) + Receivers(ref, r, pods[1..])
  }

  predicate PortNamed(cp: ContainerPort, name: string, proto: string) {
    cp.name == Some(name) && cp.protocol == proto
  }

  predicate ExposesAt(ports: seq<ContainerPort>, name: string, proto: string, n: nat) {
    exists cp | cp in ports :: PortNamed(cp, name, proto) && cp.port == n
  }

  function PodIpSet(pod: Pod, family: Family): set<IpAddr> {
    set a | a in FamilyIps(pod.ips, family)
  }

  function GroupIps(receivers: seq<Pod>, name: string, proto: string, family: Family, n: nat): set<IpAddr> {
    set p, a | p in receivers && a in p.ips && a.family == family && ExposesAt(p.ports, name, proto, n) :: a
  }

  /** Receiver addresses by the number a port name resolves to. */
  function NamedGroups(receivers: seq<Pod>, name: string, proto: string, family: Family): map<nat, set<IpAddr>> {
    map n | n in (set p, cp | p in receivers && cp in p.ports && PortNamed(cp, name, proto) :: cp.port)
      :: GroupIps(receivers, name, proto, family, n)
  }

  lemma {:induction false} LeastExists(s: set<nat>, k: nat)
    requires k in s
    ensures exists m :: m in s && forall x | x in s :: m <= x
  {
    var below := set x | x in s && x < k;
    if below != {} {
      var k' :| k' in below;
      LeastExists(s, k');
    } else {
      forall x | x in s
        ensures k <= x
      {
        assert x !in below;
      }
    }
  }

  function Least(s: set<nat>): (m: nat)
    requires s != {}
    ensures m in s && forall x | x in s :: m <= x
  {
    LeastExists(s, var k :| k in s; k);
    var m :| m in s && forall x | x in s :: m <= x;
    m
  }

  /** The keys of a `BTreeMap`, in its order. */
  function Ascending(s: set<nat>): (r: seq<nat>)
    ensures forall x :: x in r <==> x in s
    ensures forall i, j :: 0 <= i < j < |r| ==> r[i] < r[j]
  {
    if s == {} then [] else
      var m := Least(s);
      [m] + Ascending(s - {m})
  }

  function NamedEmissions(
    ref: RuleRef, peer: seq<Match>, proto: string, groups: map<nat, set<IpAddr>>, keys: seq<nat>): (es: seq<Emission>)
    requires forall k :: k in keys ==> k in groups
    ensures |es| == |keys| && forall i :: 0 <= i < |keys| ==> es[i] == NamedGroup(ref, peer, proto, i, keys[i], groups[keys[i]])
  {
    seq(|keys|, i requires 0 <= i < |keys| => NamedGroup(ref, peer, proto, i, keys[i], groups[keys[i]]))
  }

  function NamedGroup(ref: RuleRef, peer: seq<Match>, proto: string, ep: nat, n: nat, ips: set<IpAddr>): Emission {
    var name := ref.SetName(NamedPort(ref.dir, ref.rule, ep));
    Emission([IpsetPlan(name, ref.family, HashIp(ips))],
             [(if ref.dir.Ingress? then peer else ref.TargetMatch()) + [InSet(name, Dst)] + [Proto(proto), DPort(n)]])
  }

  function PortEmission(ref: RuleRef, peer: seq<Match>, receivers: seq<Pod>, port: PortSpec): Emission {
    match port.port
    case All => Emission([], [peer + ref.TargetMatch() + [Proto(port.protocol)]])
    case Number(n) => Emission([], [peer + ref.TargetMatch() + [Proto(port.protocol), DPort(n)]])
    case Name(name) =>
      var groups := NamedGroups(receivers, name, port.protocol, ref.family);
      Concat(NamedEmissions(ref, peer, port.protocol, groups, Ascending(groups.Keys)))
  }

  function PortEmissions(ref: RuleRef, peer: seq<Match>, receivers: seq<Pod>, ports: seq<PortSpec>): (es: seq<Emission>)
    ensures |es| == |ports| && forall i :: 0 <= i < |ports| ==> es[i] == PortEmission(ref, peer, receivers, ports[i])
  {
    seq(|ports|, i requires 0 <= i < |ports| => PortEmission(ref, peer, receivers, ports[i]))
  }

  function PeerEmission(ref: RuleRef, peer: seq<Match>, receivers: seq<Pod>, ports: seq<PortSpec>): Emission {
    if ports == [] then Emission([], [peer + ref.TargetMatch()]) else Concat(PortEmissions(ref, peer, receivers, ports))
  }

  function PeerEmissions(ref: RuleRef, peers: seq<seq<Match>>, receivers: seq<Pod>, ports: seq<PortSpec>): (es: seq<Emission>)
    ensures |es| == |peers| && forall i :: 0 <= i < |peers| ==> es[i] == PeerEmission(ref, peers[i], receivers, ports)
  {
    seq(|peers|, i requires 0 <= i < |peers| => PeerEmission(ref, peers[i], receivers, ports))
  }

  function ResolveRule(ref: RuleRef, rule: Rule, world: World): ResolvedPeers {
    Resolve(rule.peers, world.pods, world.namespaces, ref.pol.namespace, ref.family)
  }

  function RuleEmission(ref: RuleRef, rule: Rule, world: World): Emission {
    var r := ResolveRule(ref, rule, world);
    Emission(PeerSets(ref, r), [])
    .Then(Concat(PeerEmissions(ref, PeerMatches(ref, r), Receivers(ref, r, world.pods), rule.ports)))
  }

  function RuleEmissions(pol: NetworkPolicy, dir: Direction, rules: seq<Rule>, world: World, family: Family): (es: seq<Emission>)
    ensures |es| == |rules| && forall i :: 0 <= i < |rules| ==> es[i] == RuleEmission(RuleRef(pol, dir, i, family), rules[i], world)
  {
    seq(|rules|, i requires 0 <= i < |rules| => RuleEmission(RuleRef(pol, dir, i, family), rules[i], world))
  }

  function DirRules(pol: NetworkPolicy, dir: Direction): seq<Rule> {
    if dir.Ingress? then pol.ingress else pol.egress
  }

  function DirEmission(pol: NetworkPolicy, dir: Direction, world: World, family: Family): Emission {
    Emission([IpsetPlan(PolicySet(pol.namespace, pol.name, Targets(dir), family), family,
                        HashIp(SelectedIps(pol, world.pods, family)))], [])
    .Then(Concat(RuleEmissions(pol, dir, DirRules(pol, dir), world, family)))
  }

  function PolicyEmission(pol: NetworkPolicy, world: World, family: Family): Emission {
    (if pol.hasIngress then DirEmission(pol, Ingress, world, family) else NOTHING)
    .Then(if pol.hasEgress then DirEmission(pol, Egress, world, family) else NOTHING)
  }

  function ChainOf(pol: NetworkPolicy, cfg: Config): Chain {
    PolicyChain(pol.namespace, pol.name, cfg.syncVersion, cfg.family)
  }

  predicate Applies(pol: NetworkPolicy) {
    pol.hasIngress || pol.hasEgress
  }

  // ---- the plan as a value -----------------------------------------------------

  function Join(a: Plan, b: Plan): Plan {
    Plan(a.ipsets + b.ipsets, a.decls + b.decls, a.rules + b.rules)
  }

  const NO_PLAN := Plan([], [], [])

  function ConcatPlans(ps: seq<Plan>): Plan {
    if ps == [] then NO_PLAN else Join(ConcatPlans(ps[..|ps|-1]), ps[|ps|-1])
  }

  lemma {:induction false} ConcatSets(ps: seq<Plan>, s: IpsetPlan)
    ensures s in ConcatPlans(ps).ipsets <==> exists i :: 0 <= i < |ps| && s in ps[i].ipsets
  {
    if ps != [] {
      ConcatSets(ps[..|ps|-1], s);
    }
  }

  lemma {:induction false} ConcatDecls(ps: seq<Plan>, c: Chain)
    ensures c in ConcatPlans(ps).decls <==> exists i :: 0 <= i < |ps| && c in ps[i].decls
  {
    if ps != [] {
      ConcatDecls(ps[..|ps|-1], c);
    }
  }

  lemma {:induction false} ConcatRules(ps: seq<Plan>, l: Line)
    ensures l in ConcatPlans(ps).rules <==> exists i :: 0 <= i < |ps| && l in ps[i].rules
  {
    if ps != [] {
      ConcatRules(ps[..|ps|-1], l);
    }
  }

  function PolicyPlan(pol: NetworkPolicy, world: World, cfg: Config): Plan {
    if !Applies(pol) then NO_PLAN else
      var e := PolicyEmission(pol, world, cfg.family);
      Plan(e.sets, [ChainOf(pol, cfg)], PermitLines(ChainOf(pol, cfg), e.permits))
  }

  function PolicyPlans(policies: seq<NetworkPolicy>, world: World, cfg: Config): (ps: seq<Plan>)
    ensures |ps| == |policies| && forall i :: 0 <= i < |policies| ==> ps[i] == PolicyPlan(policies[i], world, cfg)
  {
    seq(|policies|, i requires 0 <= i < |policies| => PolicyPlan(policies[i], world, cfg))
  }

  function CommonIcmp(family: Family): seq<(string, string)> {
    match family
    case V4 => [("icmp", "echo-request"), ("icmp", "destination-unreachable"), ("icmp", "time-exceeded")]
    case V6 => [("icmpv6", "echo-request"), ("icmpv6", "destination-unreachable"), ("icmpv6", "time-exceeded"),
                ("icmpv6", "neighbor-solicitation"), ("icmpv6", "neighbor-advertisement"), ("icmpv6", "echo-reply")]
  }

  function IcmpLines(kinds: seq<(string, string)>): seq<Line> {
    seq(|kinds|, i requires 0 <= i < |kinds| => Line(Common, [Icmp(kinds[i].0, kinds[i].1)], Accept))
  }

  function FamilyNets(nets: seq<IpNet>, family: Family): (r: seq<IpNet>)
    ensures forall n :: n in r <==> n in nets && n.addr.family == family
  {
    if nets == [] then [] else
      (if nets[0].addr.family == family then [nets[0]] else []) + FamilyNets(nets[1..], family)
  }

  function ServiceLines(ranges: seq<IpNet>): seq<Line> {
    seq(|ranges|, i requires 0 <= i < |ranges| => Line(RouterInput, [ToNet(ranges[i])], Return))
  }

  function NodePortLines(ports: Option<(nat, nat)>): seq<Line> {
    if ports.None? then [] else
      var (lo, hi) := ports.value;
      [Line(RouterInput, [Proto("tcp"), DstTypeLocal, DPorts(lo, hi)], Return),
       Line(RouterInput, [Proto("udp"), DstTypeLocal, DPorts(lo, hi)], Return),
       Line(RouterInput, [Proto("sctp"), DstTypeLocal, DPorts(lo, hi)], Return)]
  }

  const BASE_DECLS: seq<Chain> := [RouterInput, RouterForward, RouterOutput, Common, Default, Tail]

  function CommonLines(family: Family): seq<Line> {
    [Line(Common, [StateInvalid], Drop), Line(Common, [StateTracked], Accept)] + IcmpLines(CommonIcmp(family))
  }

  const DEFAULT_LINES: seq<Line> := [Line(Default, [], SetXmark(MATCHED, MATCHED))]

  function BasePlan(cfg: Config): Plan {
    Plan([], BASE_DECLS,
         CommonLines(cfg.family) + DEFAULT_LINES
         + (ServiceLines(FamilyNets(cfg.serviceRanges, cfg.family)) + NodePortLines(cfg.nodePorts)))
  }

  /** A pod that can get a firewall chain on this node. */
  predicate Actionable(pod: Pod, cfg: Config) {
    pod.nodeName == cfg.node && !pod.hostNetwork && FamilyIps(pod.ips, cfg.family) != []
  }

  function Selecting(policies: seq<NetworkPolicy>, pod: Pod): (r: seq<NetworkPolicy>)
    ensures forall p :: p in r <==> p in policies && Applies(p) && Selects(p, pod)
  {
    if policies == [] then [] else
      (if Applies(policies[0]) && Selects(policies[0], pod) then [policies[0]] else []) + Selecting(policies[1..], pod)
  }

  predicate HasIngress(policies: seq<NetworkPolicy>) {
    exists p | p in policies :: p.hasIngress
  }

  predicate HasEgress(policies: seq<NetworkPolicy>) {
    exists p | p in policies :: p.hasEgress
  }

  function ChainOfPod(pod: Pod, cfg: Config): Chain {
    PodChain(pod.namespace, pod.name, cfg.syncVersion)
  }

  function LocalAccepts(c: Chain, ips: seq<IpAddr>): seq<Line> {
    seq(|ips|, i requires 0 <= i < |ips| => Line(c, [SrcTypeLocal, To(ips[i])], Accept))
  }

  function PolicyJump(c: Chain, a: IpAddr, pol: NetworkPolicy, cfg: Config): Line {
    Line(c, if pol.hasIngress && pol.hasEgress then [] else if pol.hasIngress then [To(a)] else [From(a)],
         Jump(ChainOf(pol, cfg)))
  }

  function PolicyJumps(c: Chain, a: IpAddr, policies: seq<NetworkPolicy>, cfg: Config): seq<Line> {
    seq(|policies|, i requires 0 <= i < |policies| => PolicyJump(c, a, policies[i], cfg))
  }

  function DispatchOne(c: Chain, a: IpAddr, policies: seq<NetworkPolicy>, cfg: Config): seq<Line> {
    PolicyJumps(c, a, policies, cfg)
    + (if HasIngress(policies) then [] else [Line(c, [To(a)], Jump(Default))])
    + (if HasEgress(policies) then [] else [Line(c, [From(a)], Jump(Default))])
  }

  function Dispatch(c: Chain, ips: seq<IpAddr>, policies: seq<NetworkPolicy>, cfg: Config): seq<Line> {
    if ips == [] then [] else
      Dispatch(c, ips[..|ips|-1], policies, cfg) + DispatchOne(c, ips[|ips|-1], policies, cfg)
  }

  function Closing(c: Chain): seq<Line> {
    [Line(c, [MarkIsNot(MATCHED, MATCHED)], Nflog),
     Line(c, [MarkIsNot(MATCHED, MATCHED)], Reject),
     Line(c, [], SetMark({}, MATCHED)),
     Line(c, [], SetMark(ACCEPTED, ACCEPTED))]
  }

  function PodLines(pod: Pod, policies: seq<NetworkPolicy>, cfg: Config): seq<Line> {
    var c, ips := ChainOfPod(pod, cfg), FamilyIps(pod.ips, cfg.family);
    [Line(c, [], Jump(Common))] + LocalAccepts(c, ips) + Dispatch(c, ips, policies, cfg) + Closing(c)
  }

  function Intercept(c: Chain, a: IpAddr): seq<Line> {
    [Line(RouterForward, [To(a)], Jump(c)),
     Line(RouterOutput, [To(a)], Jump(c)),
     Line(RouterForward, [Bridged, To(a)], Jump(c)),
     Line(RouterInput, [From(a)], Jump(c)),
     Line(RouterForward, [From(a)], Jump(c)),
     Line(RouterOutput, [From(a)], Jump(c)),
     Line(RouterForward, [Bridged, From(a)], Jump(c))]
  }

  function Intercepts(c: Chain, ips: seq<IpAddr>): seq<Line> {
    if ips == [] then [] else Intercepts(c, ips[..|ips|-1]) + Intercept(c, ips[|ips|-1])
  }

  /** Pods that get a chain: actionable and selected by some policy. */
  predicate Programmed(pod: Pod, world: World, cfg: Config) {
    Actionable(pod, cfg) && Selecting(world.policies, pod) != []
  }

  function PodPlan(pod: Pod, world: World, cfg: Config): Plan {
    if !Programmed(pod, world, cfg) then NO_PLAN else
      var c := ChainOfPod(pod, cfg);
      Plan([], [c], PodLines(pod, Selecting(world.policies, pod), cfg) + Intercepts(c, FamilyIps(pod.ips, cfg.family)))
  }

  function PodPlans(pods: seq<Pod>, world: World, cfg: Config): (ps: seq<Plan>)
    ensures |ps| == |pods| && forall i :: 0 <= i < |pods| ==> ps[i] == PodPlan(pods[i], world, cfg)
  {
    seq(|pods|, i requires 0 <= i < |pods| => PodPlan(pods[i], world, cfg))
  }

  function ProgrammedIps(pods: seq<Pod>, world: World, cfg: Config): set<IpAddr> {
    set p, a | p in pods && a in p.ips && Programmed(p, world, cfg) && a.family == cfg.family :: a
  }

  function Gates(cidrs: seq<IpNet>, name: SetName): seq<Line> {
    if cidrs == [] then [] else
      var n := cidrs[|cidrs|-1];
      Gates(cidrs[..|cidrs|-1], name)
      + [Line(Tail, [FromNet(n), NotInSet(name, Src)], Reject), Line(Tail, [ToNet(n), NotInSet(name, Dst)], Reject)]
  }

  function Denials(cidrs: seq<IpNet>): seq<Line> {
    if cidrs == [] then [] else
      var n := cidrs[|cidrs|-1];
      Denials(cidrs[..|cidrs|-1]) + [Line(Tail, [FromNet(n)], Reject), Line(Tail, [ToNet(n)], Reject)]
  }

  function TailLines(cfg: Config): seq<Line> {
    var cidrs := FamilyNets(cfg.podCidrs, cfg.family);
    (if cfg.defaultDeny then Gates(cidrs, LocalPods(cfg.family)) else [])
    + [Line(Tail, [MarkIs(ACCEPTED, ACCEPTED)], Accept)]
    + (if cfg.defaultDeny then Denials(cidrs) else [])
  }

  const TAIL_JUMPS: seq<Line> :=
    [Line(RouterInput, [], Jump(Tail)), Line(RouterForward, [], Jump(Tail)), Line(RouterOutput, [], Jump(Tail))]

  function TailPlan(world: World, cfg: Config): Plan {
    Plan(if cfg.defaultDeny
         then [IpsetPlan(LocalPods(cfg.family), cfg.family, HashIp(ProgrammedIps(world.pods, world, cfg)))] else [],
         [], TailLines(cfg) + TAIL_JUMPS)
  }

  /** The whole compiled plan. */
  function Compile(world: World, cfg: Config): Plan {
    Join(Join(Join(BasePlan(cfg), ConcatPlans(PolicyPlans(world.policies, world, cfg))),
              ConcatPlans(PodPlans(world.pods, world, cfg))),
         TailPlan(world, cfg))
  }

  // ---- building it ---------------------------------------------------------------

  /** `p` after a policy chain received an emission. */
  function Extend(p: Plan, pchain: Chain, e: Emission): Plan {
    Plan(p.ipsets + e.sets, p.decls, p.rules + PermitLines(pchain, e.permits))
  }

  lemma {:induction false} ExtendThen(p: Plan, pchain: Chain, e: Emission, next: Emission)
    ensures Extend(Extend(p, pchain, e), pchain, next) == Extend(p, pchain, e.Then(next))
  {
    PermitLinesAppend(pchain, e.permits, next.permits);
    assert p.ipsets + e.sets + next.sets == p.ipsets + (e.sets + next.sets);
    var x, y := PermitLines(pchain, e.permits), PermitLines(pchain, next.permits);
    assert p.rules + x + y == p.rules + (x + y);
  }

  lemma {:induction false} ExtendConcat(p: Plan, pchain: Chain, es: seq<Emission>, i: nat)
    requires i < |es|
    ensures Extend(Extend(p, pchain, Concat(es[..i])), pchain, es[i]) == Extend(p, pchain, Concat(es[..i+1]))
  {
    assert es[..i+1][..i] == es[..i];
    ExtendThen(p, pchain, Concat(es[..i]), es[i]);
  }

  lemma {:induction false} ThenNothing(e: Emission)
    ensures e.Then(NOTHING) == e
  {
  }

  lemma {:induction false} ExtendNothing(p: Plan, pchain: Chain)
    ensures Extend(p, pchain, NOTHING) == p
  {
  }

  lemma {:induction false} PermitLinesOne(pchain: Chain, ms: seq<Match>)
    ensures PermitLines(pchain, [ms]) == Permit(pchain, ms)
  {
    assert PermitLines(pchain, [ms][1..]) == [];
  }

  lemma {:induction false} GroupIpsPush(receivers: seq<Pod>, pod: Pod, name: string, proto: string, family: Family, n: nat)
    ensures GroupIps(receivers + [pod], name, proto, family, n)
         == GroupIps(receivers, name, proto, family, n)
            + (if ExposesAt(pod.ports, name, proto, n) then PodIpSet(pod, family) else {})
  {
  }

  /** The groups after the first ports of one more receiver, whose addresses are `ips`. */
  ghost predicate GroupedSoFar(
    groups: map<nat, set<IpAddr>>, before: map<nat, set<IpAddr>>, ips: set<IpAddr>, ports: seq<ContainerPort>,
    name: string, proto: string)
  {
    forall n :: GroupAfter(n, groups, before, ips, ExposesAt(ports, name, proto, n))
  }

  ghost predicate GroupAfter(
    n: nat, groups: map<nat, set<IpAddr>>, before: map<nat, set<IpAddr>>, ips: set<IpAddr>, exposed: bool)
  {
    && (n in groups <==> n in before || exposed)
    && (n in groups ==> groups[n] == (if n in before then before[n] else {}) + (if exposed then ips else {}))
  }

  lemma {:induction false} GroupedAll(groups: map<nat, set<IpAddr>>, receivers: seq<Pod>, pod: Pod, name: string, proto: string, family: Family)
    requires GroupedSoFar(groups, NamedGroups(receivers, name, proto, family), PodIpSet(pod, family),
                          pod.ports, name, proto)
    ensures groups == NamedGroups(receivers + [pod], name, proto, family)
  {
    var before, after, ips := NamedGroups(receivers, name, proto, family), NamedGroups(receivers + [pod], name, proto, family),
                              PodIpSet(pod, family);
    forall n: nat
      ensures n in groups <==> n in after
      ensures n in groups ==> groups[n] == after[n]
    {
      assert GroupAfter(n, groups, before, ips, ExposesAt(pod.ports, name, proto, n));
      if ExposesAt(pod.ports, name, proto, n) {
        var cp :| cp in pod.ports && PortNamed(cp, name, proto) && cp.port == n;
        assert pod in receivers + [pod];
      }
      GroupIpsPush(receivers, pod, name, proto, family, n);
      if n !in before {
        assert GroupIps(receivers, name, proto, family, n) == {};
      }
    }
  }

  /** Group receiver addresses by the number a port name resolves to. */
  method GroupReceivers(receivers: seq<Pod>, name: string, proto: string, family: Family)
    returns (groups: map<nat, set<IpAddr>>)
    ensures groups == NamedGroups(receivers, name, proto, family)
  {
    groups := map[];
    for i := 0 to |receivers|
      invariant groups == NamedGroups(receivers[..i], name, proto, family)
    {
      var pod := receivers[i];
      groups := GroupPod(groups, pod, name, proto, family);
      GroupedAll(groups, receivers[..i], pod, name, proto, family);
      assert receivers[..i+1] == receivers[..i] + [pod];
    }
    assert receivers[..|receivers|] == receivers;
  }

  method GroupPod(before: map<nat, set<IpAddr>>, pod: Pod, name: string, proto: string, family: Family)
    returns (groups: map<nat, set<IpAddr>>)
    ensures GroupedSoFar(groups, before, PodIpSet(pod, family), pod.ports, name, proto)
  {
    var ips := PodIpSet(pod, family);
    groups := before;
    for k := 0 to |pod.ports|
      invariant GroupedSoFar(groups, before, ips, pod.ports[..k], name, proto)
    {
      var cp := pod.ports[k];
      ghost var sofar := groups;
      if PortNamed(cp, name, proto) {
        groups := groups[cp.port := (if cp.port in groups then groups[cp.port] else {}) + ips];
      }
      ghost var seen := pod.ports[..k] + [cp];
      assert pod.ports[..k+1] == seen;
      forall n: nat
        ensures GroupAfter(n, groups, before, ips, ExposesAt(seen, name, proto, n))
      {
        assert GroupAfter(n, sofar, before, ips, ExposesAt(pod.ports[..k], name, proto, n));
        ExposesPush(pod.ports[..k], cp, name, proto, n);
      }
    }
    assert pod.ports[..|pod.ports|] == pod.ports;
  }

  lemma {:induction false} ExposesPush(ports: seq<ContainerPort>, cp: ContainerPort, name: string, proto: string, n: nat)
    ensures ExposesAt(ports + [cp], name, proto, n) <==>
            ExposesAt(ports, name, proto, n) || (PortNamed(cp, name, proto) && cp.port == n)
  {
    assert forall x :: x in ports + [cp] <==> x in ports || x == cp;
  }

  class FirewallPlan {
    var ipsets: seq<IpsetPlan>
    var decls: seq<Chain>
    var rules: seq<Line>

    function Contents(): Plan
      reads this
    {
      Plan(ipsets, decls, rules)
    }

    constructor (start: Plan)
      ensures Contents() == start
    {
      ipsets, decls, rules := start.ipsets, start.decls, start.rules;
    }

    /** `push_policy_verdict`. */
    method PushPermit(pchain: Chain, ms: seq<Match>)
      modifies this
      ensures Contents() == Extend(old(Contents()), pchain, Emission([], [ms]))
    {
      rules := rules + [Line(pchain, ms, SetXmark(MATCHED, MATCHED))];
      rules := rules + [Line(pchain, ms + [MarkIs(MATCHED, MATCHED)], Return)];
      PermitLinesOne(pchain, ms);
    }

    /** The named-port arm: one ipset and one permit per resolved number, in ascending order. */
    method EmitNamedPort(ref: RuleRef, pchain: Chain, peer: seq<Match>, receivers: seq<Pod>, name: string, proto: string)
      modifies this
      ensures Contents() == Extend(old(Contents()), pchain, PortEmission(ref, peer, receivers, PortSpec(proto, Name(name))))
    {
      var groups := GroupReceivers(receivers, name, proto, ref.family);
      var keys := Ascending(groups.Keys);
      ghost var es := NamedEmissions(ref, peer, proto, groups, keys);
      ExtendNothing(Contents(), pchain);
      for ep := 0 to |keys|
        invariant Contents() == Extend(old(Contents()), pchain, Concat(es[..ep]))
      {
        var n := keys[ep];
        EmitNamedGroup(ref, pchain, peer, proto, ep, n, groups[n]);
        ExtendConcat(old(Contents()), pchain, es, ep);
      }
      assert es[..|keys|] == es;
    }

    method EmitNamedGroup(ref: RuleRef, pchain: Chain, peer: seq<Match>, proto: string, ep: nat, n: nat, ips: set<IpAddr>)
      modifies this
      ensures Contents() == Extend(old(Contents()), pchain, NamedGroup(ref, peer, proto, ep, n, ips))
    {
      var name := ref.SetName(NamedPort(ref.dir, ref.rule, ep));
      ipsets := ipsets + [IpsetPlan(name, ref.family, HashIp(ips))];
      var other := if ref.dir.Ingress? then peer else ref.TargetMatch();
      PushPermit(pchain, other + [InSet(name, Dst)] + [Proto(proto), DPort(n)]);
    }

    /** One peer match against every port. */
    method EmitPorts(ref: RuleRef, pchain: Chain, peer: seq<Match>, receivers: seq<Pod>, ports: seq<PortSpec>)
      modifies this
      ensures Contents() == Extend(old(Contents()), pchain, PeerEmission(ref, peer, receivers, ports))
    {
      if |ports| == 0 {
        PushPermit(pchain, peer + ref.TargetMatch());
        return;
      }
      ghost var es := PortEmissions(ref, peer, receivers, ports);
      ExtendNothing(Contents(), pchain);
      for i := 0 to |ports|
        invariant Contents() == Extend(old(Contents()), pchain, Concat(es[..i]))
      {
        EmitPort(ref, pchain, peer, receivers, ports[i]);
        ExtendConcat(old(Contents()), pchain, es, i);
      }
      assert es[..|ports|] == es;
    }

    method EmitPort(ref: RuleRef, pchain: Chain, peer: seq<Match>, receivers: seq<Pod>, port: PortSpec)
      modifies this
      ensures Contents() == Extend(old(Contents()), pchain, PortEmission(ref, peer, receivers, port))
    {
      match port.port {
        case All =>
          PushPermit(pchain, peer + ref.TargetMatch() + [Proto(port.protocol)]);
        case Number(n) =>
          PushPermit(pchain, peer + ref.TargetMatch() + [Proto(port.protocol), DPort(n)]);
        case Name(name) =>
          EmitNamedPort(ref, pchain, peer, receivers, name, port.protocol);
      }
    }

    /** `emit_policy_rules`. */
    method EmitPolicyRules(pol: NetworkPolicy, dir: Direction, pchain: Chain, policyRules: seq<Rule>, world: World, family: Family)
      modifies this
      ensures Contents() == Extend(old(Contents()), pchain, Concat(RuleEmissions(pol, dir, policyRules, world, family)))
    {
      ghost var es := RuleEmissions(pol, dir, policyRules, world, family);
      ExtendNothing(Contents(), pchain);
      for idx := 0 to |policyRules|
        invariant Contents() == Extend(old(Contents()), pchain, Concat(es[..idx]))
      {
        EmitRule(RuleRef(pol, dir, idx, family), pchain, policyRules[idx], world);
        ExtendConcat(old(Contents()), pchain, es, idx);
      }
      assert es[..|policyRules|] == es;
    }

    /** One rule: its peer sets, then every peer match against every port. */
    method EmitRule(ref: RuleRef, pchain: Chain, rule: Rule, world: World)
      modifies this
      ensures Contents() == Extend(old(Contents()), pchain, RuleEmission(ref, rule, world))
    {
      var resolved := ResolvePeers(rule.peers, world.pods, world.namespaces, ref.pol.namespace, ref.family);
      var peerMatches := EmitPeerSets(ref, pchain, resolved);
      label SetsDone:
      var receivers := Receivers(ref, resolved, world.pods);
      ghost var es := PeerEmissions(ref, peerMatches, receivers, rule.ports);
      ExtendNothing(Contents(), pchain);
      for i := 0 to |peerMatches|
        invariant Contents() == Extend(old@SetsDone(Contents()), pchain, Concat(es[..i]))
      {
        EmitPorts(ref, pchain, peerMatches[i], receivers, rule.ports);
        ExtendConcat(old@SetsDone(Contents()), pchain, es, i);
      }
      assert es[..|peerMatches|] == es;
      ExtendThen(old(Contents()), pchain, Emission(PeerSets(ref, resolved), []), Concat(es));
    }

    method EmitPeerSets(ref: RuleRef, ghost pchain: Chain, resolved: ResolvedPeers) returns (peerMatches: seq<seq<Match>>)
      modifies this
      ensures Contents() == Extend(old(Contents()), pchain, Emission(PeerSets(ref, resolved), []))
      ensures peerMatches == PeerMatches(ref, resolved)
    {
      peerMatches := [];
      if resolved.matchAll {
        peerMatches := peerMatches + [[]];
      } else {
        if resolved.ips != {} {
          var podSet := ref.SetName(PeerPods(ref.dir, ref.rule));
          ipsets := ipsets + [IpsetPlan(podSet, ref.family, HashIp(resolved.ips))];
          peerMatches := peerMatches + [[InSet(podSet, ref.PeerSide())]];
        }
        if resolved.nets != [] {
          var blockSet := ref.SetName(PeerBlocks(ref.dir, ref.rule));
          ipsets := ipsets + [IpsetPlan(blockSet, ref.family, HashNet(resolved.nets))];
          peerMatches := peerMatches + [[InSet(blockSet, ref.PeerSide())]];
        }
      }
    }

    method EmitPolicy(pol: NetworkPolicy, world: World, cfg: Config)
      requires Applies(pol)
      modifies this
      ensures Contents() == Join(old(Contents()), PolicyPlan(pol, world, cfg))
    {
      var pchain := ChainOf(pol, cfg);
      decls := decls + [pchain];
      label Declared:
      ExtendNothing(Contents(), pchain);
      if pol.hasIngress {
        EmitDirection(pol, Ingress, pchain, world, cfg);
      }
      if pol.hasEgress {
        ghost var first := if pol.hasIngress then DirEmission(pol, Ingress, world, cfg.family) else NOTHING;
        assert Contents() == Extend(old@Declared(Contents()), pchain, first);
        EmitDirection(pol, Egress, pchain, world, cfg);
        ExtendThen(old@Declared(Contents()), pchain, first, DirEmission(pol, Egress, world, cfg.family));
      }
      ThenNothing(if pol.hasIngress then DirEmission(pol, Ingress, world, cfg.family) else NOTHING);
      assert Contents() == Extend(old@Declared(Contents()), pchain, PolicyEmission(pol, world, cfg.family));
    }

    method EmitDirection(pol: NetworkPolicy, dir: Direction, pchain: Chain, world: World, cfg: Config)
      modifies this
      ensures Contents() == Extend(old(Contents()), pchain, DirEmission(pol, dir, world, cfg.family))
    {
      var target := PolicySet(pol.namespace, pol.name, Targets(dir), cfg.family);
      var selected := SelectedIps(pol, world.pods, cfg.family);
      ipsets := ipsets + [IpsetPlan(target, cfg.family, HashIp(selected))];
      ghost var start := Emission([IpsetPlan(target, cfg.family, HashIp(selected))], []);
      assert Contents() == Extend(old(Contents()), pchain, start);
      EmitPolicyRules(pol, dir, pchain, DirRules(pol, dir), world, cfg.family);
      ExtendThen(old(Contents()), pchain, start, Concat(RuleEmissions(pol, dir, DirRules(pol, dir), world, cfg.family)));
    }

    method Push(line: Line)
      modifies this
      ensures Contents() == old(Contents()).(rules := old(rules) + [line])
    {
      rules := rules + [line];
    }

    /** The jumps one address of a pod adds to its chain. */
    method EmitDispatchOne(c: Chain, a: IpAddr, selecting: seq<NetworkPolicy>, cfg: Config)
      requires forall p :: p in selecting ==> Applies(p)
      modifies this
      ensures Contents() == old(Contents()).(rules := old(rules) + DispatchOne(c, a, selecting, cfg))
    {
      var hasIngress, hasEgress := HasIngress(selecting), HasEgress(selecting);
      for k := 0 to |selecting|
        invariant Contents() == old(Contents()).(rules := old(rules) + PolicyJumps(c, a, selecting[..k], cfg))
      {
        var pol := selecting[k];
        assert Applies(pol);
        if pol.hasIngress && pol.hasEgress {
          Push(Line(c, [], Jump(ChainOf(pol, cfg))));
        } else if pol.hasIngress {
          Push(Line(c, [To(a)], Jump(ChainOf(pol, cfg))));
        } else {
          assert pol.hasEgress;
          Push(Line(c, [From(a)], Jump(ChainOf(pol, cfg))));
        }
        assert PolicyJumps(c, a, selecting[..k+1], cfg) == PolicyJumps(c, a, selecting[..k], cfg) + [PolicyJump(c, a, pol, cfg)];
      }
      assert selecting[..|selecting|] == selecting;
      if !hasIngress {
        Push(Line(c, [To(a)], Jump(Default)));
      }
      if !hasEgress {
        Push(Line(c, [From(a)], Jump(Default)));
      }
    }

    method EmitDispatch(c: Chain, ips: seq<IpAddr>, selecting: seq<NetworkPolicy>, cfg: Config)
      requires forall p :: p in selecting ==> Applies(p)
      modifies this
      ensures Contents() == old(Contents()).(rules := old(rules) + Dispatch(c, ips, selecting, cfg))
    {
      hide Applies, DispatchOne;
      for i := 0 to |ips|
        invariant Contents() == old(Contents()).(rules := old(rules) + Dispatch(c, ips[..i], selecting, cfg))
      {
        EmitDispatchOne(c, ips[i], selecting, cfg);
        assert ips[..i+1][..i] == ips[..i];
      }
      assert ips[..|ips|] == ips;
    }

    method EmitLocalAccepts(c: Chain, ips: seq<IpAddr>)
      modifies this
      ensures Contents() == old(Contents()).(rules := old(rules) + LocalAccepts(c, ips))
    {
      for i := 0 to |ips|
        invariant Contents() == old(Contents()).(rules := old(rules) + LocalAccepts(c, ips[..i]))
      {
        Push(Line(c, [SrcTypeLocal, To(ips[i])], Accept));
        assert LocalAccepts(c, ips[..i+1]) == LocalAccepts(c, ips[..i]) + [Line(c, [SrcTypeLocal, To(ips[i])], Accept)];
      }
      assert ips[..|ips|] == ips;
    }

    method EmitIntercepts(c: Chain, ips: seq<IpAddr>)
      modifies this
      ensures Contents() == old(Contents()).(rules := old(rules) + Intercepts(c, ips))
    {
      for i := 0 to |ips|
        invariant Contents() == old(Contents()).(rules := old(rules) + Intercepts(c, ips[..i]))
      {
        rules := rules + Intercept(c, ips[i]);
        assert ips[..i+1][..i] == ips[..i];
      }
      assert ips[..|ips|] == ips;
    }

    /** One programmed pod: its chain and the jumps into it. */
    method EmitPod(pod: Pod, world: World, cfg: Config)
      requires Programmed(pod, world, cfg)
      modifies this
      ensures Contents() == Join(old(Contents()), PodPlan(pod, world, cfg))
    {
      var selecting := Selecting(world.policies, pod);
      var c, ips := ChainOfPod(pod, cfg), FamilyIps(pod.ips, cfg.family);
      decls := decls + [c];
      Push(Line(c, [], Jump(Common)));
      EmitLocalAccepts(c, ips);
      EmitDispatch(c, ips, selecting, cfg);
      rules := rules + Closing(c);
      EmitIntercepts(c, ips);
      ghost var jump, accepts, dispatch := [Line(c, [], Jump(Common))], LocalAccepts(c, ips), Dispatch(c, ips, selecting, cfg);
      Assoc5(old(rules), jump, accepts, dispatch, Closing(c), Intercepts(c, ips));
    }

    method EmitGates(cidrs: seq<IpNet>, name: SetName)
      modifies this
      ensures Contents() == old(Contents()).(rules := old(rules) + Gates(cidrs, name))
    {
      for i := 0 to |cidrs|
        invariant Contents() == old(Contents()).(rules := old(rules) + Gates(cidrs[..i], name))
      {
        rules := rules + [Line(Tail, [FromNet(cidrs[i]), NotInSet(name, Src)], Reject),
                          Line(Tail, [ToNet(cidrs[i]), NotInSet(name, Dst)], Reject)];
        assert cidrs[..i+1][..i] == cidrs[..i];
      }
      assert cidrs[..|cidrs|] == cidrs;
    }

    method EmitDenials(cidrs: seq<IpNet>)
      modifies this
      ensures Contents() == old(Contents()).(rules := old(rules) + Denials(cidrs))
    {
      for i := 0 to |cidrs|
        invariant Contents() == old(Contents()).(rules := old(rules) + Denials(cidrs[..i]))
      {
        rules := rules + [Line(Tail, [FromNet(cidrs[i])], Reject), Line(Tail, [ToNet(cidrs[i])], Reject)];
        assert cidrs[..i+1][..i] == cidrs[..i];
      }
      assert cidrs[..|cidrs|] == cidrs;
    }

    method EmitTail(programmed: set<IpAddr>, world: World, cfg: Config)
      requires programmed == ProgrammedIps(world.pods, world, cfg)
      modifies this
      ensures Contents() == Join(old(Contents()), TailPlan(world, cfg))
    {
      var cidrs := FamilyNets(cfg.podCidrs, cfg.family);
      if cfg.defaultDeny {
        ipsets := ipsets + [IpsetPlan(LocalPods(cfg.family), cfg.family, HashIp(programmed))];
        EmitGates(cidrs, LocalPods(cfg.family));
      }
      Push(Line(Tail, [MarkIs(ACCEPTED, ACCEPTED)], Accept));
      if cfg.defaultDeny {
        EmitDenials(cidrs);
      }
      assert rules == old(rules) + TailLines(cfg);
      rules := rules + TAIL_JUMPS;
    }
  }

  lemma {:induction false} Assoc5(o: seq<Line>, a: seq<Line>, b: seq<Line>, c: seq<Line>, d: seq<Line>, e: seq<Line>)
    ensures o + a + b + c + d + e == o + ((a + b + c + d) + e)
  {
  }

  lemma {:induction false} JoinAssoc(a: Plan, b: Plan, c: Plan)
    ensures Join(Join(a, b), c) == Join(a, Join(b, c))
  {
    assert a.ipsets + b.ipsets + c.ipsets == a.ipsets + (b.ipsets + c.ipsets);
    assert a.decls + b.decls + c.decls == a.decls + (b.decls + c.decls);
    assert a.rules + b.rules + c.rules == a.rules + (b.rules + c.rules);
  }

  lemma {:induction false} JoinNone(a: Plan)
    ensures Join(a, NO_PLAN) == a
  {
  }

  /** `build_plan`. */
  method BuildPlan(world: World, cfg: Config) returns (plan: FirewallPlan)
    ensures fresh(plan)
    ensures plan.Contents() == Compile(world, cfg)
  {
    plan := new FirewallPlan(BasePlan(cfg));
    ghost var base, ps := plan.Contents(), PolicyPlans(world.policies, world, cfg);
    JoinNone(base);
    for i := 0 to |world.policies|
      invariant fresh(plan)
      invariant plan.Contents() == Join(base, ConcatPlans(ps[..i]))
    {
      JoinNone(plan.Contents());
      if Applies(world.policies[i]) {
        plan.EmitPolicy(world.policies[i], world, cfg);
      }
      JoinConcat(base, ps, i);
    }
    assert ps[..|world.policies|] == ps;
    var programmed := BuildPods(plan, world, cfg);
    plan.EmitTail(programmed, world, cfg);
  }

  lemma {:induction false} JoinConcat(base: Plan, ps: seq<Plan>, i: nat)
    requires i < |ps|
    ensures Join(Join(base, ConcatPlans(ps[..i])), ps[i]) == Join(base, ConcatPlans(ps[..i+1]))
  {
    assert ps[..i+1][..i] == ps[..i];
    JoinAssoc(base, ConcatPlans(ps[..i]), ps[i]);
  }

  lemma {:induction false} ProgrammedIpsStep(pods: seq<Pod>, i: nat, world: World, cfg: Config)
    requires i < |pods|
    ensures ProgrammedIps(pods[..i+1], world, cfg)
         == ProgrammedIps(pods[..i], world, cfg) + (if Programmed(pods[i], world, cfg) then PodIpSet(pods[i], cfg.family) else {})
  {
    assert pods[..i+1] == pods[..i] + [pods[i]];
  }

  /** The per-pod part of `build_plan`. */
  method BuildPods(plan: FirewallPlan, world: World, cfg: Config) returns (programmed: set<IpAddr>)
    modifies plan
    ensures plan.Contents() == Join(old(plan.Contents()), ConcatPlans(PodPlans(world.pods, world, cfg)))
    ensures programmed == ProgrammedIps(world.pods, world, cfg)
  {
    ghost var ps := PodPlans(world.pods, world, cfg);
    JoinNone(plan.Contents());
    programmed := {};
    for i := 0 to |world.pods|
      invariant plan.Contents() == Join(old(plan.Contents()), ConcatPlans(ps[..i]))
      invariant programmed == ProgrammedIps(world.pods[..i], world, cfg)
    {
      ProgrammedIpsStep(world.pods, i, world, cfg);
      JoinNone(plan.Contents());
      if Programmed(world.pods[i], world, cfg) {
        plan.EmitPod(world.pods[i], world, cfg);
        programmed := programmed + PodIpSet(world.pods[i], cfg.family);
      }
      JoinConcat(old(plan.Contents()), ps, i);
    }
    assert ps[..|world.pods|] == ps;
    assert world.pods[..|world.pods|] == world.pods;
  }
}
