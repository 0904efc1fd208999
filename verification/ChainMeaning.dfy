// What the compiled chains do to a packet: pod chains, the tail, and the top-level chains that
// tie them together.

module ChainMeaning {
  import opened Net
  import opened PolicyModel
  import opened RuleLang
  import opened Synth
  import opened SynthWellFormed
  import opened PolicyMeaning
  import opened LiveSets

  // ---- which rules each chain holds -------------------------------------------------

  lemma {:induction false} OneSource(ps: seq<Plan>, k: nat, c: Chain)
    requires k < |ps|
    requires forall j, l :: 0 <= j < |ps| && j != k && l in ps[j].rules ==> l.chain != c
    ensures RulesOf(ConcatPlans(ps).rules, c) == RulesOf(ps[k].rules, c)
  {
    var n := |ps| - 1;
    var front := ps[..n];
    RulesOfAppend(ConcatPlans(front).rules, ps[n].rules, c);
    if k == n {
      NoSource(front, c);
    } else {
      OneSource(front, k, c);
      RulesOfNone(ps[n].rules, c);
    }
  }

  lemma {:induction false} NoSource(ps: seq<Plan>, c: Chain)
    requires forall j, l :: 0 <= j < |ps| && l in ps[j].rules ==> l.chain != c
    ensures RulesOf(ConcatPlans(ps).rules, c) == []
  {
    forall l | l in ConcatPlans(ps).rules
      ensures l.chain != c
    {
      ConcatRules(ps, l);
    }
    RulesOfNone(ConcatPlans(ps).rules, c);
  }

  lemma {:induction false} PolicyPlanChain(pol: NetworkPolicy, world: World, cfg: Config, l: Line)
    requires l in PolicyPlan(pol, world, cfg).rules
    ensures Applies(pol) && l.chain == ChainOf(pol, cfg)
  {
    PermitLinesMembers(ChainOf(pol, cfg), PolicyEmission(pol, world, cfg.family).permits, l);
  }

  predicate TopLevel(c: Chain) {
    c == RouterInput || c == RouterForward || c == RouterOutput
  }

  lemma {:induction false} PodLinesChain(pod: Pod, policies: seq<NetworkPolicy>, cfg: Config, l: Line)
    requires l in PodLines(pod, policies, cfg)
    ensures l.chain == ChainOfPod(pod, cfg)
  {
    var c, ips := ChainOfPod(pod, cfg), FamilyIps(pod.ips, cfg.family);
    if l in Dispatch(c, ips, policies, cfg) {
      DispatchShape(c, ips, policies, cfg, l);
    } else {
      assert l in [Line(c, [], Jump(Common))] || l in LocalAccepts(c, ips) || l in Closing(c);
    }
  }

  lemma {:induction false} InterceptsTop(c: Chain, ips: seq<IpAddr>, l: Line)
    requires l in Intercepts(c, ips)
    ensures TopLevel(l.chain) && l.target == Jump(c)
  {
    InterceptsMembers(c, ips, l);
    var a :| a in ips && l in Intercept(c, a);
    InterceptShape(c, a, l);
  }

  lemma {:induction false} PodPlanChain(pod: Pod, world: World, cfg: Config, l: Line)
    requires l in PodPlan(pod, world, cfg).rules
    ensures Programmed(pod, world, cfg) && (l.chain == ChainOfPod(pod, cfg) || TopLevel(l.chain))
  {
    var c, policies := ChainOfPod(pod, cfg), Selecting(world.policies, pod);
    if l in PodLines(pod, policies, cfg) {
      PodLinesChain(pod, policies, cfg, l);
    } else {
      InterceptsTop(c, FamilyIps(pod.ips, cfg.family), l);
    }
  }

  lemma {:induction false} TailPlanChain(cfg: Config, l: Line)
    requires l in TailLines(cfg)
    ensures l.chain == Tail
  {
    var cidrs, name := FamilyNets(cfg.podCidrs, cfg.family), LocalPods(cfg.family);
    if cfg.defaultDeny && l in Gates(cidrs, name) {
      GatesShape(cidrs, name, l);
    } else if cfg.defaultDeny && l in Denials(cidrs) {
      DenialsShape(cidrs, l);
    }
  }

  /** The rules of a chain, part by part. */
  lemma {:induction false} RulesByPart(world: World, cfg: Config, c: Chain)
    ensures RulesOf(Compile(world, cfg).rules, c) ==
            RulesOf(BasePlan(cfg).rules, c)
            + RulesOf(ConcatPlans(PolicyPlans(world.policies, world, cfg)).rules, c)
            + RulesOf(ConcatPlans(PodPlans(world.pods, world, cfg)).rules, c)
            + RulesOf(TailLines(cfg), c) + RulesOf(TAIL_JUMPS, c)
  {
    CompileParts(world, cfg);
    var base, pols, pods := BasePlan(cfg).rules, ConcatPlans(PolicyPlans(world.policies, world, cfg)).rules,
                            ConcatPlans(PodPlans(world.pods, world, cfg)).rules;
    RulesOfAppend(base + pols + pods, TailLines(cfg) + TAIL_JUMPS, c);
    RulesOfAppend(base + pols, pods, c);
    RulesOfAppend(base, pols, c);
    RulesOfAppend(TailLines(cfg), TAIL_JUMPS, c);
  }

  lemma {:induction false} BaseChain(cfg: Config, l: Line)
    requires l in BasePlan(cfg).rules
    ensures l.chain == Common || l.chain == Default || l.chain == RouterInput
  {
  }

  lemma {:induction false} NoPolicyRules(world: World, cfg: Config, c: Chain)
    requires !c.PolicyChain?
    ensures RulesOf(ConcatPlans(PolicyPlans(world.policies, world, cfg)).rules, c) == []
  {
    var ps := PolicyPlans(world.policies, world, cfg);
    forall j, l | 0 <= j < |ps| && l in ps[j].rules
      ensures l.chain != c
    {
      PolicyPlanChain(world.policies[j], world, cfg, l);
    }
    NoSource(ps, c);
  }

  lemma {:induction false} NoPodRules(world: World, cfg: Config, c: Chain)
    requires !c.PodChain? && !TopLevel(c)
    ensures RulesOf(ConcatPlans(PodPlans(world.pods, world, cfg)).rules, c) == []
  {
    var ps := PodPlans(world.pods, world, cfg);
    forall j, l | 0 <= j < |ps| && l in ps[j].rules
      ensures l.chain != c
    {
      PodPlanChain(world.pods[j], world, cfg, l);
    }
    NoSource(ps, c);
  }

  lemma {:induction false} NoBaseRules(cfg: Config, c: Chain)
    requires c != Common && c != Default && c != RouterInput
    ensures RulesOf(BasePlan(cfg).rules, c) == []
  {
    forall l | l in BasePlan(cfg).rules
      ensures l.chain != c
    {
      BaseChain(cfg, l);
    }
    RulesOfNone(BasePlan(cfg).rules, c);
  }

  lemma {:induction false} NoTailRules(cfg: Config, c: Chain)
    requires c != Tail
    ensures RulesOf(TailLines(cfg), c) == []
  {
    forall l | l in TailLines(cfg)
      ensures l.chain != c
    {
      TailPlanChain(cfg, l);
    }
    RulesOfNone(TailLines(cfg), c);
  }

  lemma {:induction false} PolicyPartRules(world: World, cfg: Config, pol: NetworkPolicy)
    requires NamesUnique(world) && pol in world.policies && Applies(pol)
    ensures RulesOf(ConcatPlans(PolicyPlans(world.policies, world, cfg)).rules, ChainOf(pol, cfg))
         == PermitLines(ChainOf(pol, cfg), PolicyEmission(pol, world, cfg.family).permits)
  {
    var c, ps := ChainOf(pol, cfg), PolicyPlans(world.policies, world, cfg);
    var k :| 0 <= k < |world.policies| && world.policies[k] == pol;
    assert ps[k].rules == PermitLines(c, PolicyEmission(pol, world, cfg.family).permits);
    hide PolicyPlan, PolicyEmission, PermitLines, RulesOf;
    forall j, l | 0 <= j < |ps| && j != k && l in ps[j].rules
      ensures l.chain != c
    {
      PolicyPlanChain(world.policies[j], world, cfg, l);
    }
    OneSource(ps, k, c);
    forall l | l in ps[k].rules
      ensures l.chain == c
    {
      PolicyPlanChain(pol, world, cfg, l);
    }
    RulesOfAll(ps[k].rules, c);
  }

  lemma {:induction false} NoJumpRules(c: Chain)
    requires !TopLevel(c)
    ensures RulesOf(TAIL_JUMPS, c) == []
  {
    RulesOfNone(TAIL_JUMPS, c);
  }

  lemma {:induction false} PolicyChainRules(world: World, cfg: Config, pol: NetworkPolicy)
    requires NamesUnique(world) && pol in world.policies && Applies(pol)
    ensures RulesOf(Compile(world, cfg).rules, ChainOf(pol, cfg))
         == PermitLines(ChainOf(pol, cfg), PolicyEmission(pol, world, cfg.family).permits)
  {
    hide Compile, BasePlan, PolicyEmission, TailLines, RulesOf, PolicyPlans, PodPlans, ConcatPlans, PermitLines, NamesUnique;
    var c := ChainOf(pol, cfg);
    RulesByPart(world, cfg, c);
    NoBaseRules(cfg, c);
    NoPodRules(world, cfg, c);
    NoTailRules(cfg, c);
    NoJumpRules(c);
    PolicyPartRules(world, cfg, pol);
  }

  lemma {:induction false} PodPlanRules(pod: Pod, world: World, cfg: Config)
    requires Programmed(pod, world, cfg)
    ensures RulesOf(PodPlan(pod, world, cfg).rules, ChainOfPod(pod, cfg)) == PodLines(pod, Selecting(world.policies, pod), cfg)
  {
    var c, ips := ChainOfPod(pod, cfg), FamilyIps(pod.ips, cfg.family);
    var own, intercepts := PodLines(pod, Selecting(world.policies, pod), cfg), Intercepts(c, ips);
    assert PodPlan(pod, world, cfg).rules == own + intercepts;
    hide PodPlan, PodLines, Intercepts, Programmed;
    RulesOfAppend(own, intercepts, c);
    forall l | l in own
      ensures l.chain == c
    {
      PodLinesChain(pod, Selecting(world.policies, pod), cfg, l);
    }
    RulesOfAll(own, c);
    forall l | l in intercepts
      ensures l.chain != c
    {
      InterceptsTop(c, ips, l);
    }
    RulesOfNone(intercepts, c);
  }

  lemma {:induction false} PodPartRules(world: World, cfg: Config, pod: Pod)
    requires NamesUnique(world) && pod in world.pods && Programmed(pod, world, cfg)
    ensures RulesOf(ConcatPlans(PodPlans(world.pods, world, cfg)).rules, ChainOfPod(pod, cfg))
         == PodLines(pod, Selecting(world.policies, pod), cfg)
  {
    hide PodPlan, PodLines, Programmed, RulesOf;
    var c, ps := ChainOfPod(pod, cfg), PodPlans(world.pods, world, cfg);
    var k :| 0 <= k < |world.pods| && world.pods[k] == pod;
    forall j, l | 0 <= j < |ps| && j != k && l in ps[j].rules
      ensures l.chain != c
    {
      PodPlanChain(world.pods[j], world, cfg, l);
    }
    OneSource(ps, k, c);
    PodPlanRules(pod, world, cfg);
  }

  lemma {:induction false} PodRulesOnly(world: World, cfg: Config, c: Chain)
    requires c.PodChain?
    ensures RulesOf(Compile(world, cfg).rules, c) == RulesOf(ConcatPlans(PodPlans(world.pods, world, cfg)).rules, c)
  {
    hide Compile, BasePlan, TailLines, RulesOf, PolicyPlans, PodPlans, ConcatPlans;
    RulesByPart(world, cfg, c);
    NoBaseRules(cfg, c);
    NoPolicyRules(world, cfg, c);
    NoTailRules(cfg, c);
    NoJumpRules(c);
  }

  lemma {:induction false} PodChainRules(world: World, cfg: Config, pod: Pod)
    requires NamesUnique(world) && pod in world.pods && Programmed(pod, world, cfg)
    ensures RulesOf(Compile(world, cfg).rules, ChainOfPod(pod, cfg)) == PodLines(pod, Selecting(world.policies, pod), cfg)
  {
    hide Compile, PodLines, Programmed, RulesOf, PodPlans, ConcatPlans, NamesUnique, Selecting;
    PodRulesOnly(world, cfg, ChainOfPod(pod, cfg));
    PodPartRules(world, cfg, pod);
  }

  lemma {:induction false} LeafSplit(world: World, cfg: Config, c: Chain)
    requires c == Common || c == Default || c == Tail
    ensures RulesOf(Compile(world, cfg).rules, c) == RulesOf(BasePlan(cfg).rules, c) + RulesOf(TailLines(cfg), c)
  {
    hide Compile, BasePlan, TailLines, RulesOf, PolicyPlans, PodPlans, ConcatPlans;
    RulesByPart(world, cfg, c);
    NoPolicyRules(world, cfg, c);
    NoPodRules(world, cfg, c);
    NoJumpRules(c);
  }

  lemma {:induction false} LeafRules(world: World, cfg: Config)
    ensures RulesOf(Compile(world, cfg).rules, Common) == CommonLines(cfg.family)
    ensures RulesOf(Compile(world, cfg).rules, Default) == DEFAULT_LINES
    ensures RulesOf(Compile(world, cfg).rules, Tail) == TailLines(cfg)
  {
    hide Compile, BasePlan, TailLines, CommonLines;
    LeafSplit(world, cfg, Common);
    LeafSplit(world, cfg, Default);
    LeafSplit(world, cfg, Tail);
    BaseSplit(cfg);
    NoTailRules(cfg, Common);
    NoTailRules(cfg, Default);
    NoBaseRules(cfg, Tail);
    forall l | l in TailLines(cfg)
      ensures l.chain == Tail
    {
      TailPlanChain(cfg, l);
    }
    RulesOfAll(TailLines(cfg), Tail);
  }

  lemma {:induction false} CommonLinesChain(family: Family, l: Line)
    requires l in CommonLines(family)
    ensures l.chain == Common
  {
  }

  /** What KUBE-ROUTER-INPUT lets return before anything else. */
  function ReturnLines(cfg: Config): seq<Line> {
    ServiceLines(FamilyNets(cfg.serviceRanges, cfg.family)) + NodePortLines(cfg.nodePorts)
  }

  lemma {:induction false} ReturnLinesShape(cfg: Config, l: Line)
    requires l in ReturnLines(cfg)
    ensures l.chain == RouterInput && l.target == Return && MarkFree(l.matches)
    ensures forall m :: m in l.matches ==> !m.InSet? && !m.NotInSet?
  {
  }

  lemma {:induction false} BaseByPart(cfg: Config, c: Chain)
    ensures RulesOf(BasePlan(cfg).rules, c)
         == RulesOf(CommonLines(cfg.family), c) + RulesOf(DEFAULT_LINES, c) + RulesOf(ReturnLines(cfg), c)
  {
    var common, services := CommonLines(cfg.family), ReturnLines(cfg);
    assert BasePlan(cfg).rules == common + DEFAULT_LINES + services;
    hide BasePlan, CommonLines, ReturnLines, RulesOf;
    RulesOfAppend(common + DEFAULT_LINES, services, c);
    RulesOfAppend(common, DEFAULT_LINES, c);
  }

  /** Each part of the base plan belongs to one chain. */
  lemma {:induction false} BaseOwners(cfg: Config, c: Chain)
    ensures RulesOf(CommonLines(cfg.family), c) == if c == Common then CommonLines(cfg.family) else []
    ensures RulesOf(ReturnLines(cfg), c) == if c == RouterInput then ReturnLines(cfg) else []
  {
    var common, services := CommonLines(cfg.family), ReturnLines(cfg);
    forall l | l in common
      ensures l.chain == Common
    {
      CommonLinesChain(cfg.family, l);
    }
    forall l | l in services
      ensures l.chain == RouterInput
    {
      ReturnLinesShape(cfg, l);
    }
    hide CommonLines, ReturnLines, RulesOf;
    if c == Common {
      RulesOfAll(common, c);
    } else {
      RulesOfNone(common, c);
    }
    if c == RouterInput {
      RulesOfAll(services, c);
    } else {
      RulesOfNone(services, c);
    }
  }

  lemma {:induction false} DefaultOwner(c: Chain)
    ensures RulesOf(DEFAULT_LINES, c) == if c == Default then DEFAULT_LINES else []
  {
    assert DEFAULT_LINES[1..] == [] && RulesOf([], c) == [];
  }

  lemma {:induction false} BaseSplit(cfg: Config)
    ensures RulesOf(BasePlan(cfg).rules, Common) == CommonLines(cfg.family)
    ensures RulesOf(BasePlan(cfg).rules, Default) == DEFAULT_LINES
    ensures RulesOf(BasePlan(cfg).rules, RouterInput) == ReturnLines(cfg)
  {
    hide BasePlan, CommonLines, ReturnLines, RulesOf;
    forall c: Chain | c == Common || c == Default || c == RouterInput
      ensures RulesOf(BasePlan(cfg).rules, c)
           == if c == Common then CommonLines(cfg.family) else if c == Default then DEFAULT_LINES else ReturnLines(cfg)
    {
      BaseByPart(cfg, c);
      BaseOwners(cfg, c);
      DefaultOwner(c);
    }
  }

  // ---- generic runs -------------------------------------------------------------------

  lemma {:induction false} MatchSingle(m: Match, sets: Sets, pkt: Packet, mark: Mark)
    ensures MatchAll([m], sets, pkt, mark) <==> MatchOne(m, sets, pkt, mark)
  {
    assert [m][0] == m;
  }

  /** Lines none of which matches are passed over. */
  lemma {:induction false} RunSkips(plan: Plan, sets: Sets, c: Chain, rules: seq<Line>, pkt: Packet, mark: Mark)
    requires forall l :: l in rules ==> LineKnown(l, plan.decls, sets) && l.chain == c && !MatchAll(l.matches, sets, pkt, mark)
    ensures RunRules(plan, sets, c, rules, pkt, mark) == Fell(mark)
  {
    if rules != [] {
      assert rules[0] in rules;
      RunSkips(plan, sets, c, rules[1..], pkt, mark);
    }
  }

  /** A leaf chain that at most adds the match mark. */
  ghost predicate Marks(plan: Plan, sets: Sets, t: Chain, pkt: Packet) {
    RunChain(plan, sets, t, pkt, {}) == Fell(MATCHED)
  }

  ghost predicate MarkBehaves(plan: Plan, sets: Sets, t: Chain, pkt: Packet) {
    forall m: Mark :: RunChain(plan, sets, t, pkt, m) == Fell(if Marks(plan, sets, t, pkt) then m + MATCHED else m)
  }

  /** Some line matches and its target marks. */
  ghost predicate SomeMark(plan: Plan, sets: Sets, lines: seq<Line>, pkt: Packet) {
    exists l :: l in lines && l.target.Jump? && MatchAll(l.matches, sets, pkt, {}) && Marks(plan, sets, l.target.chain, pkt)
  }

  lemma {:induction false} RunMarking(plan: Plan, sets: Sets, c: Chain, lines: seq<Line>, pkt: Packet, mark: Mark)
    requires forall l :: l in lines ==> LineKnown(l, plan.decls, sets) && l.chain == c && l.target.Jump? && MarkFree(l.matches)
                                        && MarkBehaves(plan, sets, l.target.chain, pkt)
    ensures RunRules(plan, sets, c, lines, pkt, mark) == Fell(if SomeMark(plan, sets, lines, pkt) then mark + MATCHED else mark)
  {
    if lines != [] {
      var l, rest := lines[0], lines[1..];
      assert lines == [l] + rest;
      MarkFreeMatch(l.matches, sets, pkt, mark);
      var step := RunLine(plan, sets, c, l, pkt, mark);
      var hit := MatchAll(l.matches, sets, pkt, {}) && Marks(plan, sets, l.target.chain, pkt);
      assert MarkBehaves(plan, sets, l.target.chain, pkt);
      assert RunChain(plan, sets, l.target.chain, pkt, mark)
          == Fell(if Marks(plan, sets, l.target.chain, pkt) then mark + MATCHED else mark);
      assert step == Fell(if hit then mark + MATCHED else mark);
      RunMarking(plan, sets, c, rest, pkt, step.mark);
      assert mark + MATCHED + MATCHED == mark + MATCHED;
      assert SomeMark(plan, sets, lines, pkt) <==> hit || SomeMark(plan, sets, rest, pkt);
    }
  }

  /** A pod chain lets a packet through (adding the accept mark) or rejects it. */
  ghost predicate Passes(plan: Plan, sets: Sets, t: Chain, pkt: Packet) {
    RunChain(plan, sets, t, pkt, {}).Fell?
  }

  ghost predicate GateBehaves(plan: Plan, sets: Sets, t: Chain, pkt: Packet) {
    forall m: Mark :: 16 !in m ==>
      RunChain(plan, sets, t, pkt, m) == if Passes(plan, sets, t, pkt) then Fell(m + ACCEPTED) else Rejected
  }

  ghost predicate Entered(sets: Sets, lines: seq<Line>, pkt: Packet) {
    exists l :: l in lines && MatchAll(l.matches, sets, pkt, {})
  }

  ghost predicate Refused(plan: Plan, sets: Sets, lines: seq<Line>, pkt: Packet) {
    exists l :: l in lines && l.target.Jump? && MatchAll(l.matches, sets, pkt, {}) && !Passes(plan, sets, l.target.chain, pkt)
  }

  /** Any number of guarded pod chains in a row: one refusal rejects, otherwise the accept mark is set if any ran. */
  lemma {:induction false} RunGates(plan: Plan, sets: Sets, c: Chain, lines: seq<Line>, pkt: Packet, mark: Mark)
    requires 16 !in mark
    requires forall l :: l in lines ==> LineKnown(l, plan.decls, sets) && l.chain == c && l.target.Jump? && MarkFree(l.matches)
                                        && GateBehaves(plan, sets, l.target.chain, pkt)
    ensures RunRules(plan, sets, c, lines, pkt, mark) ==
            if Refused(plan, sets, lines, pkt) then Rejected
            else Fell(if Entered(sets, lines, pkt) then mark + ACCEPTED else mark)
  {
    if lines != [] {
      var l, rest := lines[0], lines[1..];
      assert lines == [l] + rest;
      MarkFreeMatch(l.matches, sets, pkt, mark);
      var hit, pass := MatchAll(l.matches, sets, pkt, {}), Passes(plan, sets, l.target.chain, pkt);
      var step := RunLine(plan, sets, c, l, pkt, mark);
      assert step == if !hit then Fell(mark) else if pass then Fell(mark + ACCEPTED) else Rejected;
      assert Refused(plan, sets, lines, pkt) <==> (hit && !pass) || Refused(plan, sets, rest, pkt);
      assert Entered(sets, lines, pkt) <==> hit || Entered(sets, rest, pkt);
      if step.Fell? {
        RunGates(plan, sets, c, rest, pkt, step.mark);
        assert mark + ACCEPTED + ACCEPTED == mark + ACCEPTED;
      }
    }
  }

  // ---- the leaf chains ----------------------------------------------------------------

  /** The ICMP kinds that are permitted whatever the policies say. */
  predicate PermittedIcmp(pkt: Packet, family: Family) {
    match family
    case V4 => pkt.proto == "icmp" && pkt.icmpKind in ["echo-request", "destination-unreachable", "time-exceeded"]
    case V6 => pkt.proto == "icmpv6" && pkt.icmpKind in ["echo-request", "destination-unreachable", "time-exceeded",
                                                         "neighbor-solicitation", "neighbor-advertisement", "echo-reply"]
  }

  /** COMMON decides the packet: invalid, tracked, or an always-permitted ICMP kind. */
  predicate CommonDecides(pkt: Packet, family: Family) {
    pkt.state != New || PermittedIcmp(pkt, family)
  }

  /** Accepting lines in a row: one match accepts. */
  lemma {:induction false} RunAccepts(plan: Plan, sets: Sets, c: Chain, rules: seq<Line>, pkt: Packet, mark: Mark)
    requires forall l :: l in rules ==> LineKnown(l, plan.decls, sets) && l.chain == c && l.target == Accept && MarkFree(l.matches)
    ensures RunRules(plan, sets, c, rules, pkt, mark) == if Entered(sets, rules, pkt) then Accepted else Fell(mark)
  {
    if rules != [] {
      var l, rest := rules[0], rules[1..];
      assert rules == [l] + rest;
      MarkFreeMatch(l.matches, sets, pkt, mark);
      assert Entered(sets, rules, pkt) <==> MatchAll(l.matches, sets, pkt, {}) || Entered(sets, rest, pkt);
      RunAccepts(plan, sets, c, rest, pkt, mark);
    }
  }

  lemma {:induction false} IcmpKinds(pkt: Packet, family: Family)
    ensures PermittedIcmp(pkt, family) <==> (pkt.proto, pkt.icmpKind) in CommonIcmp(family)
  {
    match family
    case V4 =>
      assert ["echo-request", "destination-unreachable", "time-exceeded"]
          == ["echo-request"] + ["destination-unreachable"] + ["time-exceeded"];
      assert CommonIcmp(V4) == [("icmp", "echo-request")] + [("icmp", "destination-unreachable")] + [("icmp", "time-exceeded")];
    case V6 =>
      assert ["echo-request", "destination-unreachable", "time-exceeded", "neighbor-solicitation", "neighbor-advertisement", "echo-reply"]
          == ["echo-request"] + ["destination-unreachable"] + ["time-exceeded"]
             + ["neighbor-solicitation"] + ["neighbor-advertisement"] + ["echo-reply"];
      assert CommonIcmp(V6)
          == [("icmpv6", "echo-request")] + [("icmpv6", "destination-unreachable")] + [("icmpv6", "time-exceeded")]
             + [("icmpv6", "neighbor-solicitation")] + [("icmpv6", "neighbor-advertisement")] + [("icmpv6", "echo-reply")];
  }

  lemma {:induction false} IcmpLinesMean(family: Family, sets: Sets, pkt: Packet)
    ensures Entered(sets, IcmpLines(CommonIcmp(family)), pkt) <==> PermittedIcmp(pkt, family)
  {
    hide PermittedIcmp, CommonIcmp;
    var kinds := CommonIcmp(family);
    var lines := IcmpLines(kinds);
    IcmpKinds(pkt, family);
    forall i | 0 <= i < |kinds|
      ensures lines[i] in lines
      ensures MatchAll(lines[i].matches, sets, pkt, {}) <==> (pkt.proto, pkt.icmpKind) == kinds[i]
    {
      MatchSingle(Icmp(kinds[i].0, kinds[i].1), sets, pkt, {});
    }
    if l :| l in lines && MatchAll(l.matches, sets, pkt, {}) {
      var i :| 0 <= i < |lines| && lines[i] == l;
    }
  }

  lemma {:induction false} StateLinesRun(plan: Plan, sets: Sets, pkt: Packet, mark: Mark)
    requires Common in plan.decls
    ensures RunLine(plan, sets, Common, Line(Common, [StateInvalid], Drop), pkt, mark)
         == if pkt.state == Invalid then Dropped else Fell(mark)
    ensures RunLine(plan, sets, Common, Line(Common, [StateTracked], Accept), pkt, mark)
         == if pkt.state == Related || pkt.state == Established then Accepted else Fell(mark)
  {
    MatchSingle(StateInvalid, sets, pkt, mark);
    MatchSingle(StateTracked, sets, pkt, mark);
  }

  lemma {:induction false} IcmpLinesRun(plan: Plan, sets: Sets, family: Family, pkt: Packet, mark: Mark)
    requires Common in plan.decls
    ensures RunRules(plan, sets, Common, IcmpLines(CommonIcmp(family)), pkt, mark)
         == if PermittedIcmp(pkt, family) then Accepted else Fell(mark)
  {
    hide PermittedIcmp, CommonIcmp;
    IcmpLinesMean(family, sets, pkt);
    RunAccepts(plan, sets, Common, IcmpLines(CommonIcmp(family)), pkt, mark);
  }

  /** COMMON drops what is invalid, accepts what belongs to a connection and the ICMP kinds every node needs,
      and leaves the rest alone. */
  lemma {:induction false} CommonRuns(plan: Plan, sets: Sets, cfg: Config, pkt: Packet, mark: Mark)
    requires Common in plan.decls && RulesOf(plan.rules, Common) == CommonLines(cfg.family)
    ensures RunChain(plan, sets, Common, pkt, mark) ==
            match pkt.state
            case Invalid => Dropped
            case Related => Accepted
            case Established => Accepted
            case New => if PermittedIcmp(pkt, cfg.family) then Accepted else Fell(mark)
  {
    var icmp := IcmpLines(CommonIcmp(cfg.family));
    var invalid, tracked := Line(Common, [StateInvalid], Drop), Line(Common, [StateTracked], Accept);
    assert CommonLines(cfg.family) == [invalid] + ([tracked] + icmp);
    hide PermittedIcmp, CommonIcmp, IcmpLines, RunRules, RunLine, LineKnown, MatchAll, CommonLines;
    StateLinesRun(plan, sets, pkt, mark);
    IcmpLinesRun(plan, sets, cfg.family, pkt, mark);
    RunOne(plan, sets, Common, invalid, pkt, mark);
    RunOne(plan, sets, Common, tracked, pkt, mark);
    RunAppend(plan, sets, Common, [invalid], [tracked] + icmp, pkt, mark);
    RunAppend(plan, sets, Common, [tracked], icmp, pkt, mark);
  }

  lemma {:induction false} DefaultMarks(plan: Plan, sets: Sets, pkt: Packet)
    requires Default in plan.decls && RulesOf(plan.rules, Default) == DEFAULT_LINES
    ensures MarkBehaves(plan, sets, Default, pkt) && Marks(plan, sets, Default, pkt)
  {
    assert LineKnown(DEFAULT_LINES[0], plan.decls, sets);
    forall m: Mark
      ensures RunChain(plan, sets, Default, pkt, m) == Fell(m + MATCHED)
    {
      RunOne(plan, sets, Default, DEFAULT_LINES[0], pkt, m);
      SetMatched(m);
      assert DEFAULT_LINES == [DEFAULT_LINES[0]];
    }
    assert {} + MATCHED == MATCHED;
  }

  lemma {:induction false} PermitChainMarks(plan: Plan, sets: Sets, c: Chain, permits: seq<seq<Match>>, pkt: Packet)
    requires c in plan.decls && RulesOf(plan.rules, c) == PermitLines(c, permits)
    requires forall p :: p in permits ==> MarkFree(p)
    requires forall l :: l in PermitLines(c, permits) ==> LineKnown(l, plan.decls, sets)
    ensures MarkBehaves(plan, sets, c, pkt) && (Marks(plan, sets, c, pkt) <==> AnyPermit(permits, sets, pkt))
  {
    forall m: Mark
      ensures RunChain(plan, sets, c, pkt, m) == Fell(if AnyPermit(permits, sets, pkt) then m + MATCHED else m)
    {
      RunPermits(plan, sets, c, permits, pkt, m);
    }
    assert {} + MATCHED == MATCHED != {};
  }

  lemma {:induction false} PermitsMarkFree(pol: NetworkPolicy, world: World, family: Family, p: seq<Match>)
    requires p in PolicyEmission(pol, world, family).permits
    ensures MarkFree(p)
  {
    hide PolicyEmission;
    forall m | m in p
      ensures !m.MarkIs? && !m.MarkIsNot?
    {
      PolicyRefs(pol, world, family, p, m);
    }
  }

  /** The policy's rules, against the sets that are live when the packet comes. */
  ghost predicate LivePermits(pol: NetworkPolicy, world: World, cfg: Config, pkt: Packet) {
    AnyPermit(PolicyEmission(pol, world, cfg.family).permits, SetsOf(Compile(world, cfg).ipsets), pkt)
  }

  /** Where the live sets are what the policy pushed, that is what its rules permit. */
  lemma {:induction false} LivePermitsMeans(pol: NetworkPolicy, world: World, cfg: Config, pkt: Packet)
    requires NamesUnique(world) && NamedPortsAgree(world, cfg.family) && pol in world.policies && Applies(pol)
    ensures LivePermits(pol, world, cfg, pkt) <==> PolicyPermits(pol, world, cfg.family, pkt)
  {
    hide Compile, PolicyEmission, PolicyPermits, NamesUnique, NamedPortsAgree;
    PolicySetsLive(world, cfg, pol);
    PolicyEval(pol, world, cfg.family, SetsOf(Compile(world, cfg).ipsets), pkt);
  }

  lemma {:induction false} PolicyChainMarks(world: World, cfg: Config, pol: NetworkPolicy, pkt: Packet)
    requires NamesUnique(world) && pol in world.policies && Applies(pol)
    ensures var plan := Compile(world, cfg);
            && MarkBehaves(plan, SetsOf(plan.ipsets), ChainOf(pol, cfg), pkt)
            && (Marks(plan, SetsOf(plan.ipsets), ChainOf(pol, cfg), pkt) <==> LivePermits(pol, world, cfg, pkt))
  {
    hide Compile, PolicyEmission, NamesUnique;
    var plan, c, e := Compile(world, cfg), ChainOf(pol, cfg), PolicyEmission(pol, world, cfg.family);
    var sets := SetsOf(plan.ipsets);
    PolicyChainRules(world, cfg, pol);
    CompileDeclares(world, cfg);
    CompiledPlanIsWellFormed(world, cfg);
    forall l | l in PermitLines(c, e.permits)
      ensures LineKnown(l, plan.decls, sets)
    {
      RulesOfMembers(plan.rules, c, l);
    }
    forall p | p in e.permits
      ensures MarkFree(p)
    {
      PermitsMarkFree(pol, world, cfg.family, p);
    }
    PermitChainMarks(plan, sets, c, e.permits, pkt);
  }

  // ---- a pod chain ---------------------------------------------------------------------

  /** A policy is dispatched to for one address of the pod. */
  predicate GateOpen(pol: NetworkPolicy, a: IpAddr, pkt: Packet) {
    if pol.hasIngress && pol.hasEgress then true else if pol.hasIngress then pkt.dst == a else pkt.src == a
  }

  /** What marks a packet on account of one of the pod's addresses. */
  ghost predicate AddressMarks(a: IpAddr, policies: seq<NetworkPolicy>, world: World, cfg: Config, pkt: Packet) {
    || (exists pol :: pol in policies && GateOpen(pol, a, pkt) && LivePermits(pol, world, cfg, pkt))
    || (!HasIngress(policies) && pkt.dst == a)
    || (!HasEgress(policies) && pkt.src == a)
  }

  /** What marks a packet inside a pod's chain. */
  ghost predicate PodMarks(pod: Pod, world: World, cfg: Config, pkt: Packet) {
    exists a :: a in FamilyIps(pod.ips, cfg.family) && AddressMarks(a, Selecting(world.policies, pod), world, cfg, pkt)
  }

  lemma {:induction false} DispatchMembers(c: Chain, ips: seq<IpAddr>, policies: seq<NetworkPolicy>, cfg: Config, l: Line)
    ensures l in Dispatch(c, ips, policies, cfg) <==> exists a :: a in ips && l in DispatchOne(c, a, policies, cfg)
  {
    if ips != [] {
      var rest, last := ips[..|ips|-1], ips[|ips|-1];
      DispatchMembers(c, rest, policies, cfg, l);
      assert ips == rest + [last];
    }
  }

  ghost predicate LineMarks(plan: Plan, sets: Sets, l: Line, pkt: Packet) {
    l.target.Jump? && MatchAll(l.matches, sets, pkt, {}) && Marks(plan, sets, l.target.chain, pkt)
  }

  lemma {:induction false} JumpMatches(pol: NetworkPolicy, c: Chain, a: IpAddr, cfg: Config, sets: Sets, pkt: Packet)
    requires Applies(pol)
    ensures MatchAll(PolicyJump(c, a, pol, cfg).matches, sets, pkt, {}) <==> GateOpen(pol, a, pkt)
  {
    var ms := PolicyJump(c, a, pol, cfg).matches;
    if ms != [] {
      assert MatchAll(ms, sets, pkt, {}) <==> MatchOne(ms[0], sets, pkt, {});
    }
  }

  lemma {:induction false} DefaultLinesMark(plan: Plan, sets: Sets, c: Chain, a: IpAddr, pkt: Packet)
    requires Marks(plan, sets, Default, pkt)
    ensures LineMarks(plan, sets, Line(c, [To(a)], Jump(Default)), pkt) <==> pkt.dst == a
    ensures LineMarks(plan, sets, Line(c, [From(a)], Jump(Default)), pkt) <==> pkt.src == a
  {
    var to, from := [To(a)], [From(a)];
    assert MatchAll(to, sets, pkt, {}) <==> MatchOne(to[0], sets, pkt, {});
    assert MatchAll(from, sets, pkt, {}) <==> MatchOne(from[0], sets, pkt, {});
  }

  lemma {:induction false} AddressDispatch(
    plan: Plan, sets: Sets, c: Chain, a: IpAddr, policies: seq<NetworkPolicy>, world: World, cfg: Config, pkt: Packet)
    requires Marks(plan, sets, Default, pkt)
    requires forall pol :: pol in policies ==> Applies(pol)
    requires forall pol :: pol in policies ==> (Marks(plan, sets, ChainOf(pol, cfg), pkt) <==> LivePermits(pol, world, cfg, pkt))
    ensures (exists l :: l in DispatchOne(c, a, policies, cfg) && LineMarks(plan, sets, l, pkt))
            <==> AddressMarks(a, policies, world, cfg, pkt)
  {
    hide Marks, LivePermits, MatchOne;
    var jumps, all := PolicyJumps(c, a, policies, cfg), DispatchOne(c, a, policies, cfg);
    DefaultLinesMark(plan, sets, c, a, pkt);
    var to, from := Line(c, [To(a)], Jump(Default)), Line(c, [From(a)], Jump(Default));
    assert forall l :: l in all <==> l in jumps || (!HasIngress(policies) && l == to) || (!HasEgress(policies) && l == from);
    if l :| l in all && LineMarks(plan, sets, l, pkt) {
      if l in jumps {
        var i :| 0 <= i < |policies| && jumps[i] == l;
        JumpMatches(policies[i], c, a, cfg, sets, pkt);
        assert policies[i] in policies;
      }
    }
    if pol :| pol in policies && GateOpen(pol, a, pkt) && LivePermits(pol, world, cfg, pkt) {
      var i :| 0 <= i < |policies| && policies[i] == pol;
      JumpMatches(pol, c, a, cfg, sets, pkt);
      assert jumps[i] in all && LineMarks(plan, sets, jumps[i], pkt);
    }
    assert !HasIngress(policies) && pkt.dst == a ==> to in all && LineMarks(plan, sets, to, pkt);
    assert !HasEgress(policies) && pkt.src == a ==> from in all && LineMarks(plan, sets, from, pkt);
  }

  lemma {:induction false} DispatchMeans(
    plan: Plan, sets: Sets, c: Chain, ips: seq<IpAddr>, policies: seq<NetworkPolicy>, world: World, cfg: Config, pkt: Packet)
    requires Marks(plan, sets, Default, pkt)
    requires forall pol :: pol in policies ==> Applies(pol)
    requires forall pol :: pol in policies ==> (Marks(plan, sets, ChainOf(pol, cfg), pkt) <==> LivePermits(pol, world, cfg, pkt))
    ensures SomeMark(plan, sets, Dispatch(c, ips, policies, cfg), pkt) <==>
            exists a :: a in ips && AddressMarks(a, policies, world, cfg, pkt)
  {
    var all := Dispatch(c, ips, policies, cfg);
    if l :| l in all && LineMarks(plan, sets, l, pkt) {
      DispatchMembers(c, ips, policies, cfg, l);
      var a :| a in ips && l in DispatchOne(c, a, policies, cfg);
      AddressDispatch(plan, sets, c, a, policies, world, cfg, pkt);
    }
    if a :| a in ips && AddressMarks(a, policies, world, cfg, pkt) {
      AddressDispatch(plan, sets, c, a, policies, world, cfg, pkt);
      var l :| l in DispatchOne(c, a, policies, cfg) && LineMarks(plan, sets, l, pkt);
      DispatchMembers(c, ips, policies, cfg, l);
    }
  }

  /** The end of a pod chain: reject what is unmarked, otherwise swap the match mark for the accept mark. */
  lemma {:induction false} RunClosing(plan: Plan, sets: Sets, c: Chain, pkt: Packet, mark: Mark)
    requires forall l :: l in Closing(c) ==> LineKnown(l, plan.decls, sets)
    ensures RunRules(plan, sets, c, Closing(c), pkt, mark) ==
            if 16 in mark then Fell(mark - MATCHED + ACCEPTED) else Rejected
  {
    var ls := Closing(c);
    assert ls[0] in ls && ls[1] in ls && ls[2] in ls && ls[3] in ls;
    var swapped := NewMark(ls[2].target, mark);
    ClosingChecks(plan, sets, c, pkt, mark);
    assert RunLine(plan, sets, c, ls[2], pkt, mark) == Fell(swapped);
    assert RunLine(plan, sets, c, ls[3], pkt, swapped) == Fell(NewMark(ls[3].target, swapped));
    assert NewMark(ls[3].target, swapped) == mark - MATCHED + ACCEPTED;
    var a, b, d, e := ls[0], ls[1], ls[2], ls[3];
    assert ls == [a] + ([b] + ([d] + [e]));
    hide Closing, LineKnown, MatchAll, NewMark, RunLine, RunRules;
    RunOne(plan, sets, c, a, pkt, mark);
    RunOne(plan, sets, c, b, pkt, mark);
    RunOne(plan, sets, c, d, pkt, mark);
    RunOne(plan, sets, c, e, pkt, swapped);
    RunAppend(plan, sets, c, [a], [b] + ([d] + [e]), pkt, mark);
    RunAppend(plan, sets, c, [b], [d] + [e], pkt, mark);
    RunAppend(plan, sets, c, [d], [e], pkt, mark);
  }

  lemma {:induction false} ClosingChecks(plan: Plan, sets: Sets, c: Chain, pkt: Packet, mark: Mark)
    requires LineKnown(Closing(c)[0], plan.decls, sets) && LineKnown(Closing(c)[1], plan.decls, sets)
    ensures RunLine(plan, sets, c, Closing(c)[0], pkt, mark) == Fell(mark)
    ensures RunLine(plan, sets, c, Closing(c)[1], pkt, mark) == if 16 in mark then Fell(mark) else Rejected
  {
    SetMatched(mark);
    MatchSingle(MarkIsNot(MATCHED, MATCHED), sets, pkt, mark);
  }

  /** Neither COMMON nor the node-local rule of the pod decides the packet. */
  predicate Undecided(pod: Pod, cfg: Config, pkt: Packet) {
    && !CommonDecides(pkt, cfg.family)
    && !(pkt.srcLocal && pkt.dst in FamilyIps(pod.ips, cfg.family))
  }

  lemma {:induction false} LocalAcceptsMean(c: Chain, ips: seq<IpAddr>, sets: Sets, pkt: Packet)
    ensures Entered(sets, LocalAccepts(c, ips), pkt) <==> pkt.srcLocal && pkt.dst in ips
    ensures forall l :: l in LocalAccepts(c, ips) ==> l.chain == c && l.target == Accept && MarkFree(l.matches)
  {
    var lines := LocalAccepts(c, ips);
    forall i | 0 <= i < |ips|
      ensures lines[i] in lines && (MatchAll(lines[i].matches, sets, pkt, {}) <==> pkt.srcLocal && pkt.dst == ips[i])
    {
      assert lines[i].matches == [SrcTypeLocal] + [To(ips[i])];
      MatchAllAppend([SrcTypeLocal], [To(ips[i])], sets, pkt, {});
      MatchSingle(SrcTypeLocal, sets, pkt, {});
      MatchSingle(To(ips[i]), sets, pkt, {});
    }
    if pkt.srcLocal && pkt.dst in ips {
      var i :| 0 <= i < |ips| && ips[i] == pkt.dst;
      assert Entered(sets, lines, pkt);
    }
    if l :| l in lines && MatchAll(l.matches, sets, pkt, {}) {
      var i :| 0 <= i < |lines| && lines[i] == l;
    }
  }

  /** Traffic of the node itself to the pod is accepted. */
  lemma {:induction false} LocalAcceptsRun(plan: Plan, sets: Sets, c: Chain, ips: seq<IpAddr>, pkt: Packet, mark: Mark)
    requires forall l :: l in LocalAccepts(c, ips) ==> LineKnown(l, plan.decls, sets)
    ensures RunRules(plan, sets, c, LocalAccepts(c, ips), pkt, mark) == if pkt.srcLocal && pkt.dst in ips then Accepted else Fell(mark)
  {
    hide LocalAccepts, LineKnown, Entered, RunRules;
    LocalAcceptsMean(c, ips, sets, pkt);
    RunAccepts(plan, sets, c, LocalAccepts(c, ips), pkt, mark);
  }

  /** A pod chain whose dispatch marks iff `marks`, on a packet nothing earlier decides. */
  lemma {:induction false} RunPodParts(
    plan: Plan, sets: Sets, cfg: Config, c: Chain, ips: seq<IpAddr>, dispatch: seq<Line>, marks: bool, pkt: Packet, mark: Mark)
    requires Common in plan.decls && RulesOf(plan.rules, Common) == CommonLines(cfg.family)
    requires var lines := [Line(c, [], Jump(Common))] + LocalAccepts(c, ips) + dispatch + Closing(c);
             forall l :: l in lines ==> LineKnown(l, plan.decls, sets)
    requires !CommonDecides(pkt, cfg.family) && !(pkt.srcLocal && pkt.dst in ips) && 16 !in mark
    requires RunRules(plan, sets, c, dispatch, pkt, mark) == Fell(if marks then mark + MATCHED else mark)
    ensures RunRules(plan, sets, c, [Line(c, [], Jump(Common))] + LocalAccepts(c, ips) + dispatch + Closing(c), pkt, mark)
         == if marks then Fell(mark + ACCEPTED) else Rejected
  {
    var jump, accepts := [Line(c, [], Jump(Common))], LocalAccepts(c, ips);
    assert LineKnown(jump[0], plan.decls, sets) by {
      assert jump[0] in jump + accepts + dispatch + Closing(c);
    }
    hide LocalAccepts, Closing, CommonLines, LineKnown;
    RunCommonJump(plan, sets, cfg, c, pkt, mark);
    LocalAcceptsRun(plan, sets, c, ips, pkt, mark);
    RunClosing(plan, sets, c, pkt, if marks then mark + MATCHED else mark);
    assert mark + MATCHED - MATCHED + ACCEPTED == mark + ACCEPTED;
    RunAppend(plan, sets, c, jump + accepts + dispatch, Closing(c), pkt, mark);
    RunAppend(plan, sets, c, jump + accepts, dispatch, pkt, mark);
    RunAppend(plan, sets, c, jump, accepts, pkt, mark);
  }

  /** The head of a pod chain: what COMMON decides is decided there. */
  lemma {:induction false} RunCommonJump(plan: Plan, sets: Sets, cfg: Config, c: Chain, pkt: Packet, mark: Mark)
    requires Common in plan.decls && RulesOf(plan.rules, Common) == CommonLines(cfg.family)
    requires LineKnown(Line(c, [], Jump(Common)), plan.decls, sets)
    ensures RunRules(plan, sets, c, [Line(c, [], Jump(Common))], pkt, mark) ==
            match pkt.state
            case Invalid => Dropped
            case Related => Accepted
            case Established => Accepted
            case New => if PermittedIcmp(pkt, cfg.family) then Accepted else Fell(mark)
  {
    hide CommonLines, PermittedIcmp;
    CommonRuns(plan, sets, cfg, pkt, mark);
    RunOne(plan, sets, c, Line(c, [], Jump(Common)), pkt, mark);
  }

  /** What a pod chain does: let the packet through with the accept mark, or reject it. */
  lemma {:induction false} RunPodChain(world: World, cfg: Config, pod: Pod, pkt: Packet, mark: Mark)
    requires NamesUnique(world)
    requires pod in world.pods && Programmed(pod, world, cfg) && Undecided(pod, cfg, pkt) && 16 !in mark
    ensures Verdict(Compile(world, cfg), ChainOfPod(pod, cfg), pkt, mark) ==
            if PodMarks(pod, world, cfg, pkt) then Fell(mark + ACCEPTED) else Rejected
  {
    var plan, c, ips, policies := Compile(world, cfg), ChainOfPod(pod, cfg), FamilyIps(pod.ips, cfg.family), Selecting(world.policies, pod);
    var dispatch := Dispatch(c, ips, policies, cfg);
    assert PodLines(pod, policies, cfg) == [Line(c, [], Jump(Common))] + LocalAccepts(c, ips) + dispatch + Closing(c);
    assert PodMarks(pod, world, cfg, pkt) <==> exists a :: a in ips && AddressMarks(a, policies, world, cfg, pkt);
    hide Compile, PodLines, Dispatch, Closing, LocalAccepts, PodMarks, AddressMarks, Programmed, NamesUnique,
         CommonLines, LineKnown, TargetsBehave;
    var sets := SetsOf(plan.ipsets);
    PodChainRules(world, cfg, pod);
    CompileDeclares(world, cfg);
    LeafRules(world, cfg);
    PodLinesAllKnown(world, cfg, pod);
    PodTargetsBehave(world, cfg, pod, pkt);
    DispatchRuns(plan, sets, world, cfg, c, ips, policies, pkt, mark);
    RunPodParts(plan, sets, cfg, c, ips, dispatch, PodMarks(pod, world, cfg, pkt), pkt, mark);
  }

  lemma {:induction false} PodLinesAllKnown(world: World, cfg: Config, pod: Pod)
    requires pod in world.pods && Programmed(pod, world, cfg)
    ensures var plan := Compile(world, cfg);
            forall l :: l in PodLines(pod, Selecting(world.policies, pod), cfg) ==>
                          LineKnown(l, plan.decls, SetsOf(plan.ipsets)) && l.chain == ChainOfPod(pod, cfg)
  {
    hide Compile, PodLines;
    var plan, policies := Compile(world, cfg), Selecting(world.policies, pod);
    CompileDeclares(world, cfg);
    forall l | l in PodLines(pod, policies, cfg)
      ensures LineKnown(l, plan.decls, SetsOf(plan.ipsets)) && l.chain == ChainOfPod(pod, cfg)
    {
      PodLineKnown(pod, policies, cfg, l, plan.decls, SetsOf(plan.ipsets));
      PodLinesChain(pod, policies, cfg, l);
    }
  }

  /** The chains a pod dispatches to behave: each adds the match mark or nothing. */
  ghost predicate TargetsBehave(plan: Plan, sets: Sets, policies: seq<NetworkPolicy>, world: World, cfg: Config, pkt: Packet) {
    && MarkBehaves(plan, sets, Default, pkt) && Marks(plan, sets, Default, pkt)
    && (forall pol :: pol in policies ==> Applies(pol) && MarkBehaves(plan, sets, ChainOf(pol, cfg), pkt))
    && (forall pol :: pol in policies ==> (Marks(plan, sets, ChainOf(pol, cfg), pkt) <==> LivePermits(pol, world, cfg, pkt)))
  }

  lemma {:induction false} PodTargetsBehave(world: World, cfg: Config, pod: Pod, pkt: Packet)
    requires NamesUnique(world)
    ensures var plan := Compile(world, cfg);
            TargetsBehave(plan, SetsOf(plan.ipsets), Selecting(world.policies, pod), world, cfg, pkt)
  {
    hide Compile, LivePermits, NamesUnique, MarkBehaves, Marks, Applies;
    var plan, policies := Compile(world, cfg), Selecting(world.policies, pod);
    CompileDeclares(world, cfg);
    LeafRules(world, cfg);
    DefaultMarks(plan, SetsOf(plan.ipsets), pkt);
    forall pol | pol in policies
      ensures Applies(pol) && MarkBehaves(plan, SetsOf(plan.ipsets), ChainOf(pol, cfg), pkt)
      ensures Marks(plan, SetsOf(plan.ipsets), ChainOf(pol, cfg), pkt) <==> LivePermits(pol, world, cfg, pkt)
    {
      PolicyChainMarks(world, cfg, pol, pkt);
    }
  }

  lemma {:induction false} DispatchRuns(
    plan: Plan, sets: Sets, world: World, cfg: Config, c: Chain, ips: seq<IpAddr>, policies: seq<NetworkPolicy>, pkt: Packet, mark: Mark)
    requires TargetsBehave(plan, sets, policies, world, cfg, pkt)
    requires forall l :: l in Dispatch(c, ips, policies, cfg) ==> LineKnown(l, plan.decls, sets)
    ensures RunRules(plan, sets, c, Dispatch(c, ips, policies, cfg), pkt, mark)
         == Fell(if exists a :: a in ips && AddressMarks(a, policies, world, cfg, pkt) then mark + MATCHED else mark)
  {
    hide Dispatch, AddressMarks, LivePermits, Applies, MarkBehaves, Marks, LineKnown;
    var lines := Dispatch(c, ips, policies, cfg);
    forall l | l in lines
      ensures LineKnown(l, plan.decls, sets) && l.chain == c && l.target.Jump? && MarkFree(l.matches)
              && MarkBehaves(plan, sets, l.target.chain, pkt)
    {
      DispatchShape(c, ips, policies, cfg, l);
    }
    RunMarking(plan, sets, c, lines, pkt, mark);
    DispatchMeans(plan, sets, c, ips, policies, world, cfg, pkt);
  }
}
