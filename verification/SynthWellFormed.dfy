// Every plan the compiler produces is well formed: chains and sets exist before they are used,
// and jumps only go down. No hypothesis on the inputs.

module SynthWellFormed {
  import opened Net
  import opened PolicyModel
  import opened Translate
  import opened RuleLang
  import opened Synth

  lemma {:induction false} PermitLinesMembers(c: Chain, permits: seq<seq<Match>>, l: Line)
    ensures l in PermitLines(c, permits) <==> exists p :: p in permits && l in Permit(c, p)
  {
    if permits != [] {
      PermitLinesMembers(c, permits[1..], l);
      assert permits == [permits[0]] + permits[1..];
    }
  }

  // ---- policy chains only use their policy's sets -------------------------------------

  /** A match of a policy chain: it reads no mark, and its set (if any) is one of `sets`. */
  ghost predicate Named(m: Match, sets: seq<IpsetPlan>) {
    && !m.MarkIs? && !m.MarkIsNot?
    && ((m.InSet? || m.NotInSet?) ==> exists s :: s in sets && s.name == m.name)
  }

  /** Every set a permit of `e` names is one of `e` or of `before`. */
  ghost predicate Closed(e: Emission, before: seq<IpsetPlan>) {
    forall p, m :: p in e.permits && m in p ==> Named(m, before + e.sets)
  }

  lemma {:induction false} ConcatClosed(es: seq<Emission>, before: seq<IpsetPlan>)
    requires forall i :: 0 <= i < |es| ==> Closed(es[i], before)
    ensures Closed(Concat(es), before)
  {
    forall p, m | p in Concat(es).permits && m in p
      ensures Named(m, before + Concat(es).sets)
    {
      ConcatMembers(es, p, IpsetPlan(LocalPods(V4), V4, HashIp({})));
      var i :| 0 <= i < |es| && p in es[i].permits;
      assert Named(m, before + es[i].sets);
      if m.InSet? || m.NotInSet? {
        var s :| s in before + es[i].sets && s.name == m.name;
        ConcatMembers(es, p, s);
      }
    }
  }

  ghost predicate AllNamed(ms: seq<Match>, sets: seq<IpsetPlan>) {
    forall m :: m in ms ==> Named(m, sets)
  }

  lemma {:induction false} NamedGroupClosed(ref: RuleRef, peer: seq<Match>, proto: string, ep: nat, n: nat, ips: set<IpAddr>, before: seq<IpsetPlan>)
    requires AllNamed(peer, before) && AllNamed(ref.TargetMatch(), before)
    ensures Closed(NamedGroup(ref, peer, proto, ep, n, ips), before)
  {
    var e := NamedGroup(ref, peer, proto, ep, n, ips);
    assert e.sets[0] in before + e.sets;
    forall m | m in e.permits[0]
      ensures Named(m, before + e.sets)
    {
      if m in peer || m in ref.TargetMatch() {
        assert Named(m, before);
      }
    }
  }

  lemma {:induction false} PortClosed(ref: RuleRef, peer: seq<Match>, receivers: seq<Pod>, port: PortSpec, before: seq<IpsetPlan>)
    requires AllNamed(peer, before) && AllNamed(ref.TargetMatch(), before)
    ensures Closed(PortEmission(ref, peer, receivers, port), before)
  {
    var e := PortEmission(ref, peer, receivers, port);
    if port.port.Name? {
      var groups := NamedGroups(receivers, port.port.name, port.protocol, ref.family);
      var keys := Ascending(groups.Keys);
      var es := NamedEmissions(ref, peer, port.protocol, groups, keys);
      forall i | 0 <= i < |es|
        ensures Closed(es[i], before)
      {
        NamedGroupClosed(ref, peer, port.protocol, i, keys[i], groups[keys[i]], before);
      }
      ConcatClosed(es, before);
    } else {
      assert forall p, m :: p in e.permits && m in p && (m.InSet? || m.NotInSet?) ==> m in peer || m in ref.TargetMatch();
    }
  }

  lemma {:induction false} PeerClosed(ref: RuleRef, peer: seq<Match>, receivers: seq<Pod>, ports: seq<PortSpec>, before: seq<IpsetPlan>)
    requires AllNamed(peer, before) && AllNamed(ref.TargetMatch(), before)
    ensures Closed(PeerEmission(ref, peer, receivers, ports), before)
  {
    var es := PortEmissions(ref, peer, receivers, ports);
    forall i | 0 <= i < |es|
      ensures Closed(es[i], before)
    {
      PortClosed(ref, peer, receivers, ports[i], before);
    }
    ConcatClosed(es, before);
  }

  lemma {:induction false} PeerRefs(ref: RuleRef, r: ResolvedPeers, peer: seq<Match>, m: Match)
    requires peer in PeerMatches(ref, r) && m in peer
    ensures Named(m, PeerSets(ref, r))
  {
    var sets := PeerSets(ref, r);
    if r.ips != {} {
      assert sets[0] in sets;
    }
    if r.nets != [] {
      assert sets[|sets|-1] in sets;
    }
  }

  lemma {:induction false} PeersClosed(ref: RuleRef, peers: seq<seq<Match>>, receivers: seq<Pod>, ports: seq<PortSpec>, before: seq<IpsetPlan>)
    requires AllNamed(ref.TargetMatch(), before)
    requires forall i :: 0 <= i < |peers| ==> AllNamed(peers[i], before)
    ensures Closed(Concat(PeerEmissions(ref, peers, receivers, ports)), before)
  {
    var es := PeerEmissions(ref, peers, receivers, ports);
    forall i | 0 <= i < |es|
      ensures Closed(es[i], before)
    {
      PeerClosed(ref, peers[i], receivers, ports, before);
    }
    ConcatClosed(es, before);
  }

  lemma {:induction false} NamedWeaken(ms: seq<Match>, sets: seq<IpsetPlan>, more: seq<IpsetPlan>)
    requires AllNamed(ms, sets)
    ensures AllNamed(ms, sets + more) && AllNamed(ms, more + sets)
  {
  }

  lemma {:induction false} RuleClosed(ref: RuleRef, rule: Rule, world: World, before: seq<IpsetPlan>)
    requires AllNamed(ref.TargetMatch(), before)
    ensures Closed(RuleEmission(ref, rule, world), before)
  {
    var r := ResolveRule(ref, rule, world);
    var peers, receivers, own := PeerMatches(ref, r), Receivers(ref, r, world.pods), PeerSets(ref, r);
    NamedWeaken(ref.TargetMatch(), before, own);
    forall i | 0 <= i < |peers|
      ensures AllNamed(peers[i], before + own)
    {
      forall m | m in peers[i]
        ensures Named(m, own)
      {
        PeerRefs(ref, r, peers[i], m);
      }
      NamedWeaken(peers[i], own, before);
    }
    PeersClosed(ref, peers, receivers, rule.ports, before + own);
    ClosedShift(own, Concat(PeerEmissions(ref, peers, receivers, rule.ports)), before);
  }

  lemma {:induction false} ClosedShift(own: seq<IpsetPlan>, e: Emission, before: seq<IpsetPlan>)
    requires Closed(e, before + own)
    ensures Closed(Emission(own, []).Then(e), before)
  {
    assert before + own + e.sets == before + (own + e.sets);
    assert [] + e.permits == e.permits;
  }

  lemma {:induction false} DirRefs(pol: NetworkPolicy, dir: Direction, world: World, family: Family)
    ensures Closed(DirEmission(pol, dir, world, family), [])
  {
    var rules, sets := DirRules(pol, dir), DirEmission(pol, dir, world, family).sets;
    var es, target := RuleEmissions(pol, dir, rules, world, family), [sets[0]];
    forall i | 0 <= i < |es|
      ensures Closed(es[i], target)
    {
      var ref := RuleRef(pol, dir, i, family);
      assert AllNamed(ref.TargetMatch(), target) by {
        assert target[0] in target;
      }
      RuleClosed(ref, rules[i], world, target);
    }
    ConcatClosed(es, target);
    assert target + Concat(es).sets == [] + sets;
  }

  lemma {:induction false} PolicyRefs(pol: NetworkPolicy, world: World, family: Family, p: seq<Match>, m: Match)
    requires p in PolicyEmission(pol, world, family).permits && m in p
    ensures Named(m, PolicyEmission(pol, world, family).sets)
  {
    if pol.hasIngress && p in DirEmission(pol, Ingress, world, family).permits {
      DirRefs(pol, Ingress, world, family);
      assert Named(m, [] + DirEmission(pol, Ingress, world, family).sets);
    } else {
      DirRefs(pol, Egress, world, family);
      assert Named(m, [] + DirEmission(pol, Egress, world, family).sets);
    }
  }

  // ---- the whole plan ---------------------------------------------------------------

  lemma {:induction false} BaseKnown(cfg: Config, l: Line, decls: seq<Chain>, sets: Sets)
    requires l in BasePlan(cfg).rules
    requires Common in decls && Default in decls && RouterInput in decls
    ensures LineKnown(l, decls, sets)
  {
    assert !l.target.Jump?;
    assert forall m :: m in l.matches ==> !m.InSet? && !m.NotInSet?;
  }

  lemma {:induction false} PolicyLineKnown(pol: NetworkPolicy, world: World, cfg: Config, l: Line, decls: seq<Chain>, sets: Sets)
    requires l in PolicyPlan(pol, world, cfg).rules
    requires ChainOf(pol, cfg) in decls
    requires forall s :: s in PolicyPlan(pol, world, cfg).ipsets ==> s.name in sets
    ensures LineKnown(l, decls, sets)
  {
    hide PolicyEmission;
    var e := PolicyEmission(pol, world, cfg.family);
    PermitLinesMembers(ChainOf(pol, cfg), e.permits, l);
    var p :| p in e.permits && l in Permit(ChainOf(pol, cfg), p);
    forall m | m in l.matches
      ensures MatchKnown(m, sets)
    {
      if m in p {
        PolicyRefs(pol, world, cfg.family, p, m);
      }
    }
  }

  /** A line of a dispatch goes to a selecting policy's chain, or to the default one. */
  ghost predicate DispatchLine(c: Chain, l: Line, policies: seq<NetworkPolicy>, cfg: Config) {
    && l.chain == c
    && l.target.Jump?
    && (forall m :: m in l.matches ==> m.From? || m.To?)
    && (l.target.chain == Default || exists pol :: pol in policies && l.target.chain == ChainOf(pol, cfg))
  }

  lemma {:induction false} DispatchShape(c: Chain, ips: seq<IpAddr>, policies: seq<NetworkPolicy>, cfg: Config, l: Line)
    requires l in Dispatch(c, ips, policies, cfg)
    ensures DispatchLine(c, l, policies, cfg)
  {
    var a := ips[|ips|-1];
    if l in PolicyJumps(c, a, policies, cfg) {
      var i :| 0 <= i < |policies| && l == PolicyJumps(c, a, policies, cfg)[i];
      assert policies[i] in policies;
    } else if l !in DispatchOne(c, a, policies, cfg) {
      DispatchShape(c, ips[..|ips|-1], policies, cfg, l);
    }
  }

  lemma {:induction false} InterceptsMembers(c: Chain, ips: seq<IpAddr>, l: Line)
    ensures l in Intercepts(c, ips) <==> exists a :: a in ips && l in Intercept(c, a)
  {
    if ips != [] {
      var rest, last := ips[..|ips|-1], ips[|ips|-1];
      InterceptsMembers(c, rest, l);
      assert ips == rest + [last];
    }
  }

  lemma {:induction false} PodLineKnown(pod: Pod, policies: seq<NetworkPolicy>, cfg: Config, l: Line, decls: seq<Chain>, sets: Sets)
    requires l in PodLines(pod, policies, cfg)
    requires ChainOfPod(pod, cfg) in decls && Common in decls && Default in decls
    requires forall pol :: pol in policies ==> ChainOf(pol, cfg) in decls
    ensures LineKnown(l, decls, sets)
  {
    var c, ips := ChainOfPod(pod, cfg), FamilyIps(pod.ips, cfg.family);
    if l in Dispatch(c, ips, policies, cfg) {
      DispatchShape(c, ips, policies, cfg, l);
    } else {
      assert l in [Line(c, [], Jump(Common))] || l in LocalAccepts(c, ips) || l in Closing(c);
    }
  }

  lemma {:induction false} InterceptShape(c: Chain, a: IpAddr, l: Line)
    requires l in Intercept(c, a)
    ensures l.target == Jump(c) && (l.chain == RouterInput || l.chain == RouterForward || l.chain == RouterOutput)
    ensures forall m :: m in l.matches ==> m.From? || m.To? || m.Bridged?
  {
  }

  lemma {:induction false} InterceptKnown(c: Chain, ips: seq<IpAddr>, l: Line, decls: seq<Chain>, sets: Sets)
    requires c.PodChain? && l in Intercepts(c, ips)
    requires c in decls && RouterInput in decls && RouterForward in decls && RouterOutput in decls
    ensures LineKnown(l, decls, sets)
  {
    InterceptsMembers(c, ips, l);
    var a :| a in ips && l in Intercept(c, a);
    InterceptShape(c, a, l);
  }

  lemma {:induction false} GatesShape(cidrs: seq<IpNet>, name: SetName, l: Line)
    requires l in Gates(cidrs, name)
    ensures l.chain == Tail && l.target == Reject && forall m :: m in l.matches && (m.InSet? || m.NotInSet?) ==> m.name == name
  {
    if l in Gates(cidrs[..|cidrs|-1], name) {
      GatesShape(cidrs[..|cidrs|-1], name, l);
    }
  }

  lemma {:induction false} DenialsShape(cidrs: seq<IpNet>, l: Line)
    requires l in Denials(cidrs)
    ensures l.chain == Tail && l.target == Reject && forall m :: m in l.matches ==> m.FromNet? || m.ToNet?
  {
    if l in Denials(cidrs[..|cidrs|-1]) {
      DenialsShape(cidrs[..|cidrs|-1], l);
    }
  }

  lemma {:induction false} TailLineKnown(cfg: Config, l: Line, decls: seq<Chain>, sets: Sets)
    requires l in TailLines(cfg) + TAIL_JUMPS
    requires Tail in decls && RouterInput in decls && RouterForward in decls && RouterOutput in decls
    requires cfg.defaultDeny ==> LocalPods(cfg.family) in sets
    ensures LineKnown(l, decls, sets)
  {
    var cidrs, name := FamilyNets(cfg.podCidrs, cfg.family), LocalPods(cfg.family);
    if cfg.defaultDeny && l in Gates(cidrs, name) {
      GatesShape(cidrs, name, l);
    } else if cfg.defaultDeny && l in Denials(cidrs) {
      DenialsShape(cidrs, l);
    }
  }

  lemma {:induction false} PodsHaveNoSets(ps: seq<Plan>)
    requires forall i :: 0 <= i < |ps| ==> ps[i].ipsets == []
    ensures ConcatPlans(ps).ipsets == []
  {
    if ps != [] {
      PodsHaveNoSets(ps[..|ps|-1]);
    }
  }

  lemma {:induction false} JoinFour(base: Plan, pols: Plan, pods: Plan, tail: Plan)
    requires base.ipsets == [] && pods.ipsets == [] && tail.decls == []
    ensures Join(Join(Join(base, pols), pods), tail)
            == Plan(pols.ipsets + tail.ipsets, base.decls + pols.decls + pods.decls, base.rules + pols.rules + pods.rules + tail.rules)
  {
  }

  /** What the parts of a plan contribute to it. */
  lemma {:induction false} CompileParts(world: World, cfg: Config)
    ensures var plan, pols, pods := Compile(world, cfg), ConcatPlans(PolicyPlans(world.policies, world, cfg)), ConcatPlans(PodPlans(world.pods, world, cfg));
            && plan.decls == BASE_DECLS + pols.decls + pods.decls
            && plan.rules == BasePlan(cfg).rules + pols.rules + pods.rules + (TailLines(cfg) + TAIL_JUMPS)
            && plan.ipsets == pols.ipsets + TailPlan(world, cfg).ipsets
  {
    hide ConcatPlans, PolicyPlans, CommonLines, ServiceLines, NodePortLines, TailLines, ProgrammedIps;
    var pods := PodPlans(world.pods, world, cfg);
    PodsHaveNoSets(pods);
    JoinFour(BasePlan(cfg), ConcatPlans(PolicyPlans(world.policies, world, cfg)), ConcatPlans(pods), TailPlan(world, cfg));
  }

  lemma {:induction false} PolicyDeclared(pol: NetworkPolicy, world: World, cfg: Config)
    requires pol in world.policies && Applies(pol)
    ensures ChainOf(pol, cfg) in ConcatPlans(PolicyPlans(world.policies, world, cfg)).decls
  {
    var ps, c := PolicyPlans(world.policies, world, cfg), ChainOf(pol, cfg);
    var i :| 0 <= i < |world.policies| && world.policies[i] == pol;
    ConcatDecls(ps, c);
    assert c in ps[i].decls;
  }

  lemma {:induction false} PodDeclared(pod: Pod, world: World, cfg: Config)
    requires pod in world.pods && Programmed(pod, world, cfg)
    ensures ChainOfPod(pod, cfg) in ConcatPlans(PodPlans(world.pods, world, cfg)).decls
  {
    var ps, c := PodPlans(world.pods, world, cfg), ChainOfPod(pod, cfg);
    var i :| 0 <= i < |world.pods| && world.pods[i] == pod;
    ConcatDecls(ps, c);
    assert c in ps[i].decls;
  }

  lemma {:induction false} CompileDeclares(world: World, cfg: Config)
    ensures var decls := Compile(world, cfg).decls;
            && RouterInput in decls && RouterForward in decls && RouterOutput in decls
            && Common in decls && Default in decls && Tail in decls
            && (forall pol :: pol in world.policies && Applies(pol) ==> ChainOf(pol, cfg) in decls)
            && (forall pod :: pod in world.pods && Programmed(pod, world, cfg) ==> ChainOfPod(pod, cfg) in decls)
  {
    hide Compile, Applies, Programmed, ConcatPlans, PolicyPlans, PodPlans, TailPlan;
    CompileParts(world, cfg);
    assert BASE_DECLS[0] == RouterInput && BASE_DECLS[1] == RouterForward && BASE_DECLS[2] == RouterOutput
        && BASE_DECLS[3] == Common && BASE_DECLS[4] == Default && BASE_DECLS[5] == Tail;
    var decls := Compile(world, cfg).decls;
    forall pol | pol in world.policies && Applies(pol)
      ensures ChainOf(pol, cfg) in decls
    {
      PolicyDeclared(pol, world, cfg);
    }
    forall pod | pod in world.pods && Programmed(pod, world, cfg)
      ensures ChainOfPod(pod, cfg) in decls
    {
      PodDeclared(pod, world, cfg);
    }
  }

  lemma {:induction false} CompileSets(world: World, cfg: Config)
    ensures var sets := SetsOf(Compile(world, cfg).ipsets);
            && (forall pol, s :: pol in world.policies && s in PolicyPlan(pol, world, cfg).ipsets ==> s.name in sets)
            && (cfg.defaultDeny ==> LocalPods(cfg.family) in sets)
  {
    CompileParts(world, cfg);
    var ipsets := Compile(world, cfg).ipsets;
    SetsOfKeys(ipsets);
    forall pol, s | pol in world.policies && s in PolicyPlan(pol, world, cfg).ipsets
      ensures s.name in SetsOf(ipsets)
    {
      var i :| 0 <= i < |world.policies| && world.policies[i] == pol;
      ConcatSets(PolicyPlans(world.policies, world, cfg), s);
      assert s in PolicyPlans(world.policies, world, cfg)[i].ipsets;
      assert s in ipsets;
    }
    if cfg.defaultDeny {
      var s := TailPlan(world, cfg).ipsets[0];
      assert s in TailPlan(world, cfg).ipsets;
      assert s in ipsets;
    }
  }

  lemma {:induction false} PolicyRulesKnown(world: World, cfg: Config, l: Line, decls: seq<Chain>, sets: Sets)
    requires l in ConcatPlans(PolicyPlans(world.policies, world, cfg)).rules
    requires forall pol :: pol in world.policies && Applies(pol) ==> ChainOf(pol, cfg) in decls
    requires forall pol, s :: pol in world.policies && s in PolicyPlan(pol, world, cfg).ipsets ==> s.name in sets
    ensures LineKnown(l, decls, sets)
  {
    var ps := PolicyPlans(world.policies, world, cfg);
    ConcatRules(ps, l);
    var i :| 0 <= i < |world.policies| && l in ps[i].rules;
    PolicyLineKnown(world.policies[i], world, cfg, l, decls, sets);
  }

  lemma {:induction false} PodRulesKnown(world: World, cfg: Config, l: Line, decls: seq<Chain>, sets: Sets)
    requires l in ConcatPlans(PodPlans(world.pods, world, cfg)).rules
    requires Common in decls && Default in decls && RouterInput in decls && RouterForward in decls && RouterOutput in decls
    requires forall pol :: pol in world.policies && Applies(pol) ==> ChainOf(pol, cfg) in decls
    requires forall pod :: pod in world.pods && Programmed(pod, world, cfg) ==> ChainOfPod(pod, cfg) in decls
    ensures LineKnown(l, decls, sets)
  {
    var ps := PodPlans(world.pods, world, cfg);
    ConcatRules(ps, l);
    var i :| 0 <= i < |world.pods| && l in ps[i].rules;
    var pod := world.pods[i];
    var policies := Selecting(world.policies, pod);
    if l in PodLines(pod, policies, cfg) {
      PodLineKnown(pod, policies, cfg, l, decls, sets);
    } else {
      InterceptKnown(ChainOfPod(pod, cfg), FamilyIps(pod.ips, cfg.family), l, decls, sets);
    }
  }

  lemma {:induction false} CompileLineKnown(world: World, cfg: Config, l: Line, decls: seq<Chain>, sets: Sets)
    requires decls == Compile(world, cfg).decls && sets == SetsOf(Compile(world, cfg).ipsets)
    requires l in Compile(world, cfg).rules
    ensures LineKnown(l, decls, sets)
  {
    CompileDeclares(world, cfg);
    CompileSets(world, cfg);
    CompileParts(world, cfg);
    if l in BasePlan(cfg).rules {
      BaseKnown(cfg, l, decls, sets);
    } else if l in ConcatPlans(PolicyPlans(world.policies, world, cfg)).rules {
      PolicyRulesKnown(world, cfg, l, decls, sets);
    } else if l in ConcatPlans(PodPlans(world.pods, world, cfg)).rules {
      PodRulesKnown(world, cfg, l, decls, sets);
    } else {
      TailLineKnown(cfg, l, decls, sets);
    }
  }

  /** Well-formedness, for every input. */
  lemma {:induction false} CompiledPlanIsWellFormed(world: World, cfg: Config)
    ensures WellFormed(Compile(world, cfg))
  {
    var plan := Compile(world, cfg);
    forall l | l in plan.rules
      ensures LineKnown(l, plan.decls, SetsOf(plan.ipsets))
    {
      CompileLineKnown(world, cfg, l, plan.decls, SetsOf(plan.ipsets));
    }
  }

  /** So no packet entering a top-level chain ever meets a missing chain, a missing set or a loop. */
  lemma {:induction false} CompiledPlanNeverMalformed(world: World, cfg: Config, c: Chain, pkt: Packet, mark: Mark)
    requires c == RouterInput || c == RouterForward || c == RouterOutput
    ensures !Verdict(Compile(world, cfg), c, pkt, mark).Malformed? && !Verdict(Compile(world, cfg), c, pkt, mark).Returned?
  {
    hide Compile;
    CompiledPlanIsWellFormed(world, cfg);
    CompileDeclares(world, cfg);
    WellFormedNeverMalformed(Compile(world, cfg), c, pkt, mark);
  }
}
