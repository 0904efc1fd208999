// The top-level chains: every programmed pod that is an endpoint of the packet judges it, then
// the tail decides. An exact outcome for every input, default-deny on or off.

module TopMeaning {
  import opened Net
  import opened PolicyModel
  import opened RuleLang
  import opened Synth
  import opened SynthWellFormed
  import opened PolicyMeaning
  import opened LiveSets
  import opened ChainMeaning

  // ---- the tail -------------------------------------------------------------------

  /** Rejecting lines in a row: one match rejects. */
  lemma {:induction false} RunRejects(plan: Plan, sets: Sets, c: Chain, rules: seq<Line>, pkt: Packet, mark: Mark)
    requires forall l :: l in rules ==> LineKnown(l, plan.decls, sets) && l.chain == c && l.target == Reject && MarkFree(l.matches)
    ensures RunRules(plan, sets, c, rules, pkt, mark) == if Entered(sets, rules, pkt) then Rejected else Fell(mark)
  {
    if rules != [] {
      var l, rest := rules[0], rules[1..];
      assert rules == [l] + rest;
      MarkFreeMatch(l.matches, sets, pkt, mark);
      assert Entered(sets, rules, pkt) <==> MatchAll(l.matches, sets, pkt, {}) || Entered(sets, rest, pkt);
      RunRejects(plan, sets, c, rest, pkt, mark);
    }
  }

  /** An endpoint lies in the prefix but is not a programmed pod address. */
  ghost predicate Unprogrammed(n: IpNet, programmed: set<IpAddr>, pkt: Packet) {
    (Contains(n, pkt.src) && pkt.src !in programmed) || (Contains(n, pkt.dst) && pkt.dst !in programmed)
  }

  predicate Inside(n: IpNet, pkt: Packet) {
    Contains(n, pkt.src) || Contains(n, pkt.dst)
  }

  lemma {:induction false} GatePairMeans(n: IpNet, name: SetName, sets: Sets, pkt: Packet, programmed: set<IpAddr>)
    requires name in sets && sets[name] == HashIp(programmed)
    ensures Unprogrammed(n, programmed, pkt) <==>
            MatchAll([FromNet(n), NotInSet(name, Src)], sets, pkt, {}) || MatchAll([ToNet(n), NotInSet(name, Dst)], sets, pkt, {})
  {
    MatchAllAppend([FromNet(n)], [NotInSet(name, Src)], sets, pkt, {});
    MatchAllAppend([ToNet(n)], [NotInSet(name, Dst)], sets, pkt, {});
    assert [FromNet(n), NotInSet(name, Src)] == [FromNet(n)] + [NotInSet(name, Src)];
    assert [ToNet(n), NotInSet(name, Dst)] == [ToNet(n)] + [NotInSet(name, Dst)];
    MatchSingle(FromNet(n), sets, pkt, {});
    MatchSingle(ToNet(n), sets, pkt, {});
    MatchSingle(NotInSet(name, Src), sets, pkt, {});
    MatchSingle(NotInSet(name, Dst), sets, pkt, {});
  }

  lemma {:induction false} EnteredAppend(sets: Sets, a: seq<Line>, b: seq<Line>, pkt: Packet)
    ensures Entered(sets, a + b, pkt) <==> Entered(sets, a, pkt) || Entered(sets, b, pkt)
  {
    assert forall l :: l in a + b <==> l in a || l in b;
  }

  lemma {:induction false} EnteredPair(sets: Sets, a: Line, b: Line, pkt: Packet)
    ensures Entered(sets, [a, b], pkt) <==> MatchAll(a.matches, sets, pkt, {}) || MatchAll(b.matches, sets, pkt, {})
  {
    assert a in [a, b] && b in [a, b];
  }

  lemma {:induction false} GatesMean(cidrs: seq<IpNet>, name: SetName, sets: Sets, pkt: Packet, programmed: set<IpAddr>)
    requires name in sets && sets[name] == HashIp(programmed)
    ensures Entered(sets, Gates(cidrs, name), pkt) <==> exists n :: n in cidrs && Unprogrammed(n, programmed, pkt)
  {
    if cidrs != [] {
      var rest, n := cidrs[..|cidrs|-1], cidrs[|cidrs|-1];
      GatesMean(rest, name, sets, pkt, programmed);
      GatePairMeans(n, name, sets, pkt, programmed);
      var from, to := Line(Tail, [FromNet(n), NotInSet(name, Src)], Reject), Line(Tail, [ToNet(n), NotInSet(name, Dst)], Reject);
      EnteredAppend(sets, Gates(rest, name), [from, to], pkt);
      EnteredPair(sets, from, to, pkt);
      assert cidrs == rest + [n];
      assert forall x :: x in cidrs <==> x in rest || x == n;
    }
  }

  lemma {:induction false} DenialsMean(cidrs: seq<IpNet>, sets: Sets, pkt: Packet)
    ensures Entered(sets, Denials(cidrs), pkt) <==> exists n :: n in cidrs && Inside(n, pkt)
  {
    if cidrs == [] {
      assert Denials(cidrs) == [];
    } else {
      var rest, n := cidrs[..|cidrs|-1], cidrs[|cidrs|-1];
      DenialsMean(rest, sets, pkt);
      var from, to := Line(Tail, [FromNet(n)], Reject), Line(Tail, [ToNet(n)], Reject);
      MatchSingle(FromNet(n), sets, pkt, {});
      MatchSingle(ToNet(n), sets, pkt, {});
      EnteredAppend(sets, Denials(rest), [from, to], pkt);
      EnteredPair(sets, from, to, pkt);
      assert Entered(sets, [from, to], pkt) <==> Inside(n, pkt);
      assert cidrs == rest + [n];
      assert forall x :: x in cidrs <==> x in rest || x == n;
    }
  }

  /** What the tail does with a packet that reaches it. */
  ghost function TailOutcome(world: World, cfg: Config, pkt: Packet, mark: Mark): Outcome {
    var programmed, cidrs := ProgrammedIps(world.pods, world, cfg), FamilyNets(cfg.podCidrs, cfg.family);
    if cfg.defaultDeny && exists n :: n in cidrs && Unprogrammed(n, programmed, pkt) then Rejected
    else if 17 in mark then Accepted
    else if cfg.defaultDeny && exists n :: n in cidrs && Inside(n, pkt) then Rejected
    else Fell(mark)
  }

  lemma {:induction false} RunAcceptMark(plan: Plan, sets: Sets, pkt: Packet, mark: Mark)
    requires Tail in plan.decls
    ensures RunRules(plan, sets, Tail, [Line(Tail, [MarkIs(ACCEPTED, ACCEPTED)], Accept)], pkt, mark)
         == if 17 in mark then Accepted else Fell(mark)
  {
    var l := Line(Tail, [MarkIs(ACCEPTED, ACCEPTED)], Accept);
    MatchSingle(MarkIs(ACCEPTED, ACCEPTED), sets, pkt, mark);
    assert mark * ACCEPTED == (if 17 in mark then ACCEPTED else {});
    RunOne(plan, sets, Tail, l, pkt, mark);
  }

  lemma {:induction false} RunGateLines(plan: Plan, sets: Sets, cidrs: seq<IpNet>, name: SetName, pkt: Packet, mark: Mark, programmed: set<IpAddr>)
    requires Tail in plan.decls && name in sets && sets[name] == HashIp(programmed)
    ensures RunRules(plan, sets, Tail, Gates(cidrs, name), pkt, mark)
         == if exists n :: n in cidrs && Unprogrammed(n, programmed, pkt) then Rejected else Fell(mark)
  {
    forall l | l in Gates(cidrs, name)
      ensures LineKnown(l, plan.decls, sets) && l.chain == Tail && l.target == Reject && MarkFree(l.matches)
    {
      GatesShape(cidrs, name, l);
      GatesFree(cidrs, name, l);
    }
    RunRejects(plan, sets, Tail, Gates(cidrs, name), pkt, mark);
    GatesMean(cidrs, name, sets, pkt, programmed);
  }

  lemma {:induction false} GatesFree(cidrs: seq<IpNet>, name: SetName, l: Line)
    requires l in Gates(cidrs, name)
    ensures MarkFree(l.matches)
  {
    if l in Gates(cidrs[..|cidrs|-1], name) {
      GatesFree(cidrs[..|cidrs|-1], name, l);
    }
  }

  lemma {:induction false} RunDenialLines(plan: Plan, sets: Sets, cidrs: seq<IpNet>, pkt: Packet, mark: Mark)
    requires Tail in plan.decls
    ensures RunRules(plan, sets, Tail, Denials(cidrs), pkt, mark)
         == if exists n :: n in cidrs && Inside(n, pkt) then Rejected else Fell(mark)
  {
    forall l | l in Denials(cidrs)
      ensures LineKnown(l, plan.decls, sets) && l.chain == Tail && l.target == Reject && MarkFree(l.matches)
    {
      DenialsShape(cidrs, l);
    }
    RunRejects(plan, sets, Tail, Denials(cidrs), pkt, mark);
    DenialsMean(cidrs, sets, pkt);
  }

  lemma {:induction false} RunTail(plan: Plan, sets: Sets, world: World, cfg: Config, pkt: Packet, mark: Mark)
    requires Tail in plan.decls && RulesOf(plan.rules, Tail) == TailLines(cfg)
    requires cfg.defaultDeny ==>
               LocalPods(cfg.family) in sets && sets[LocalPods(cfg.family)] == HashIp(ProgrammedIps(world.pods, world, cfg))
    ensures RunChain(plan, sets, Tail, pkt, mark) == TailOutcome(world, cfg, pkt, mark)
  {
    var cidrs, name, programmed := FamilyNets(cfg.podCidrs, cfg.family), LocalPods(cfg.family), ProgrammedIps(world.pods, world, cfg);
    var gates, accept, denials := if cfg.defaultDeny then Gates(cidrs, name) else [],
                                  [Line(Tail, [MarkIs(ACCEPTED, ACCEPTED)], Accept)],
                                  if cfg.defaultDeny then Denials(cidrs) else [];
    assert TailLines(cfg) == gates + accept + denials;
    RunAcceptMark(plan, sets, pkt, mark);
    if cfg.defaultDeny {
      RunGateLines(plan, sets, cidrs, name, pkt, mark, programmed);
      RunDenialLines(plan, sets, cidrs, pkt, mark);
    }
    hide Gates, Denials, TailLines, ProgrammedIps;
    RunAppend(plan, sets, Tail, gates + accept, denials, pkt, mark);
    RunAppend(plan, sets, Tail, gates, accept, pkt, mark);
  }

  // ---- the top-level chains ---------------------------------------------------------------

  /** The packet has an endpoint on the pod. */
  predicate Touches(pod: Pod, cfg: Config, pkt: Packet) {
    pkt.src in FamilyIps(pod.ips, cfg.family) || pkt.dst in FamilyIps(pod.ips, cfg.family)
  }

  function PodJumps(world: World, cfg: Config, c: Chain): seq<Line> {
    RulesOf(ConcatPlans(PodPlans(world.pods, world, cfg)).rules, c)
  }

  predicate Routed(c: Chain) {
    c == RouterForward || c == RouterOutput
  }

  lemma {:induction false} TopRules(world: World, cfg: Config, c: Chain)
    requires Routed(c)
    ensures RulesOf(Compile(world, cfg).rules, c) == PodJumps(world, cfg, c) + [Line(c, [], Jump(Tail))]
  {
    JumpRule(c);
    assert TopLevel(c) && !c.PolicyChain? && c != Common && c != Default && c != RouterInput && c != Tail;
    assert PodJumps(world, cfg, c) == RulesOf(ConcatPlans(PodPlans(world.pods, world, cfg)).rules, c);
    hide Compile, BasePlan, TailLines, PolicyPlans, PodPlans, ConcatPlans, RulesOf, Routed, TopLevel, PodJumps;
    RulesByPart(world, cfg, c);
    NoBaseRules(cfg, c);
    NoPolicyRules(world, cfg, c);
    NoTailRules(cfg, c);
    OnlyPodsAndJumps(RulesOf(BasePlan(cfg).rules, c), RulesOf(ConcatPlans(PolicyPlans(world.policies, world, cfg)).rules, c),
                     PodJumps(world, cfg, c), RulesOf(TailLines(cfg), c), RulesOf(TAIL_JUMPS, c));
  }

  lemma {:induction false} OnlyPodsAndJumps(base: seq<Line>, pols: seq<Line>, pods: seq<Line>, tail: seq<Line>, jumps: seq<Line>)
    requires base == [] && pols == [] && tail == []
    ensures base + pols + pods + tail + jumps == pods + jumps
  {
  }

  lemma {:induction false} JumpRule(c: Chain)
    requires TopLevel(c)
    ensures RulesOf(TAIL_JUMPS, c) == [Line(c, [], Jump(Tail))]
  {
    var a, b, d := TAIL_JUMPS[0], TAIL_JUMPS[1], TAIL_JUMPS[2];
    assert TAIL_JUMPS == [a] + [b] + [d];
    RulesOfAppend([a] + [b], [d], c);
    RulesOfAppend([a], [b], c);
    assert forall l: Line :: RulesOf([l], c) == if l.chain == c then [l] else [] by {
      forall l: Line
        ensures RulesOf([l], c) == if l.chain == c then [l] else []
      {
        assert RulesOf([l][1..], c) == [];
      }
    }
  }

  /** The jumps of a top-level chain are the intercepts of the programmed pods. */
  lemma {:induction false} PodJumpsAre(world: World, cfg: Config, c: Chain, l: Line)
    requires TopLevel(c)
    ensures l in PodJumps(world, cfg, c) <==>
            exists pod, a :: pod in world.pods && Programmed(pod, world, cfg) && a in FamilyIps(pod.ips, cfg.family)
                             && l in Intercept(ChainOfPod(pod, cfg), a) && l.chain == c
  {
    hide Programmed, PodPlan, Intercept, FamilyIps;
    var ps := PodPlans(world.pods, world, cfg);
    RulesOfMembers(ConcatPlans(ps).rules, c, l);
    ConcatRules(ps, l);
    if l in PodJumps(world, cfg, c) {
      var i :| 0 <= i < |ps| && l in ps[i].rules;
      OwnIntercept(world.pods[i], world, cfg, l);
      assert world.pods[i] in world.pods;
    }
    if pod, a :| pod in world.pods && Programmed(pod, world, cfg) && a in FamilyIps(pod.ips, cfg.family)
                 && l in Intercept(ChainOfPod(pod, cfg), a) && l.chain == c {
      var i :| 0 <= i < |world.pods| && world.pods[i] == pod;
      InterceptPlanned(pod, world, cfg, a, l);
      assert l in ps[i].rules;
    }
  }

  lemma {:induction false} OwnIntercept(pod: Pod, world: World, cfg: Config, l: Line)
    requires l in PodPlan(pod, world, cfg).rules && TopLevel(l.chain)
    ensures Programmed(pod, world, cfg)
    ensures exists a :: a in FamilyIps(pod.ips, cfg.family) && l in Intercept(ChainOfPod(pod, cfg), a)
  {
    var policies := Selecting(world.policies, pod);
    if l in PodLines(pod, policies, cfg) {
      PodLinesChain(pod, policies, cfg, l);
    } else {
      InterceptsMembers(ChainOfPod(pod, cfg), FamilyIps(pod.ips, cfg.family), l);
    }
  }

  lemma {:induction false} InterceptPlanned(pod: Pod, world: World, cfg: Config, a: IpAddr, l: Line)
    requires Programmed(pod, world, cfg) && a in FamilyIps(pod.ips, cfg.family) && l in Intercept(ChainOfPod(pod, cfg), a)
    ensures l in PodPlan(pod, world, cfg).rules
  {
    InterceptsMembers(ChainOfPod(pod, cfg), FamilyIps(pod.ips, cfg.family), l);
  }

  lemma {:induction false} InterceptMatches(t: Chain, a: IpAddr, l: Line, sets: Sets, pkt: Packet)
    requires l in Intercept(t, a) && MatchAll(l.matches, sets, pkt, {})
    ensures pkt.src == a || (pkt.dst == a && l.chain != RouterInput)
  {
    assert From(a) in l.matches || (To(a) in l.matches && l.chain != RouterInput) by {
      var i :| 0 <= i < |Intercept(t, a)| && Intercept(t, a)[i] == l;
      assert l.matches[|l.matches|-1] in l.matches;
    }
  }

  lemma {:induction false} InterceptCatches(c: Chain, t: Chain, a: IpAddr, sets: Sets, pkt: Packet)
    requires TopLevel(c) && (pkt.src == a || (pkt.dst == a && c != RouterInput))
    ensures exists l :: l in Intercept(t, a) && l.chain == c && l.target == Jump(t) && MatchAll(l.matches, sets, pkt, {})
  {
    var all := Intercept(t, a);
    MatchSingle(To(a), sets, pkt, {});
    MatchSingle(From(a), sets, pkt, {});
    if pkt.src == a {
      assert all[if c == RouterInput then 3 else if c == RouterForward then 4 else 5] in all;
    } else {
      assert all[if c == RouterForward then 0 else 1] in all;
    }
  }

  /** A programmed pod whose chain the packet enters: KUBE-ROUTER-INPUT looks at the source only. */
  ghost predicate Faces(pod: Pod, world: World, cfg: Config, c: Chain, pkt: Packet) {
    && pod in world.pods && Programmed(pod, world, cfg)
    && (pkt.src in FamilyIps(pod.ips, cfg.family) || (c != RouterInput && pkt.dst in FamilyIps(pod.ips, cfg.family)))
  }

  /** A jump to a pod chain, and the pod it belongs to. */
  lemma {:induction false} PodJumpKnown(world: World, cfg: Config, c: Chain, l: Line) returns (pod: Pod, a: IpAddr)
    requires TopLevel(c) && l in PodJumps(world, cfg, c)
    ensures var plan := Compile(world, cfg); LineKnown(l, plan.decls, SetsOf(plan.ipsets))
    ensures l.chain == c && l.target == Jump(ChainOfPod(pod, cfg)) && MarkFree(l.matches)
    ensures pod in world.pods && Programmed(pod, world, cfg) && a in FamilyIps(pod.ips, cfg.family)
    ensures l in Intercept(ChainOfPod(pod, cfg), a)
  {
    hide Compile, Programmed, PodJumps, Intercept, LineKnown;
    PodJumpsAre(world, cfg, c, l);
    pod, a :| pod in world.pods && Programmed(pod, world, cfg) && a in FamilyIps(pod.ips, cfg.family)
              && l in Intercept(ChainOfPod(pod, cfg), a) && l.chain == c;
    InterceptShape(ChainOfPod(pod, cfg), a, l);
    PodJumpPlanned(world, cfg, c, l);
    CompiledPlanIsWellFormed(world, cfg);
  }

  lemma {:induction false} PodJumpPlanned(world: World, cfg: Config, c: Chain, l: Line)
    requires l in PodJumps(world, cfg, c)
    ensures l in Compile(world, cfg).rules
  {
    hide Compile, BasePlan, TailLines, PolicyPlans, PodPlans, ConcatPlans;
    RulesOfMembers(ConcatPlans(PodPlans(world.pods, world, cfg)).rules, c, l);
    CompileParts(world, cfg);
  }

  /** The pods whose chains a packet enters are those it faces. */
  lemma {:induction false} EnteredFaces(world: World, cfg: Config, c: Chain, sets: Sets, pkt: Packet)
    requires TopLevel(c)
    ensures Entered(sets, PodJumps(world, cfg, c), pkt) <==> exists pod :: Faces(pod, world, cfg, c, pkt)
  {
    hide Programmed, PodJumps, Intercept;
    var jumps := PodJumps(world, cfg, c);
    if l :| l in jumps && MatchAll(l.matches, sets, pkt, {}) {
      var pod, a := PodJumpKnown(world, cfg, c, l);
      InterceptMatches(ChainOfPod(pod, cfg), a, l, sets, pkt);
      assert Faces(pod, world, cfg, c, pkt);
    }
    if pod :| Faces(pod, world, cfg, c, pkt) {
      var l := FacedJump(world, cfg, c, sets, pkt, pod);
    }
  }

  lemma {:induction false} FacedJump(world: World, cfg: Config, c: Chain, sets: Sets, pkt: Packet, pod: Pod) returns (l: Line)
    requires TopLevel(c) && Faces(pod, world, cfg, c, pkt)
    ensures l in PodJumps(world, cfg, c) && l.target == Jump(ChainOfPod(pod, cfg)) && MatchAll(l.matches, sets, pkt, {})
  {
    hide Programmed, PodJumps, Intercept;
    var a := if pkt.src in FamilyIps(pod.ips, cfg.family) then pkt.src else pkt.dst;
    InterceptCatches(c, ChainOfPod(pod, cfg), a, sets, pkt);
    l :| l in Intercept(ChainOfPod(pod, cfg), a) && l.chain == c && l.target == Jump(ChainOfPod(pod, cfg))
         && MatchAll(l.matches, sets, pkt, {});
    PodJumpsAre(world, cfg, c, l);
  }

  /** Neither COMMON nor any node-local rule decides the packet. */
  predicate Screened(world: World, cfg: Config, pkt: Packet) {
    && !CommonDecides(pkt, cfg.family)
    && !(pkt.srcLocal && pkt.dst in ProgrammedIps(world.pods, world, cfg))
  }

  /** A programmed pod at one end of the packet whose chain does not mark it. */
  ghost predicate Stops(pod: Pod, world: World, cfg: Config, pkt: Packet) {
    pod in world.pods && Programmed(pod, world, cfg) && Touches(pod, cfg, pkt) && !PodMarks(pod, world, cfg, pkt)
  }

  ghost predicate Judges(pod: Pod, world: World, cfg: Config, pkt: Packet) {
    pod in world.pods && Programmed(pod, world, cfg) && Touches(pod, cfg, pkt)
  }

  lemma {:induction false} ScreenedIsUndecided(world: World, cfg: Config, pod: Pod, pkt: Packet)
    requires Screened(world, cfg, pkt) && pod in world.pods && Programmed(pod, world, cfg)
    ensures Undecided(pod, cfg, pkt)
  {
    hide Programmed, CommonDecides;
  }

  lemma {:induction false} PodGateBehaves(world: World, cfg: Config, pod: Pod, pkt: Packet)
    requires NamesUnique(world) && Undecided(pod, cfg, pkt)
    requires pod in world.pods && Programmed(pod, world, cfg)
    ensures var plan := Compile(world, cfg);
            && GateBehaves(plan, SetsOf(plan.ipsets), ChainOfPod(pod, cfg), pkt)
            && (Passes(plan, SetsOf(plan.ipsets), ChainOfPod(pod, cfg), pkt) <==> PodMarks(pod, world, cfg, pkt))
  {
    hide Compile, PodMarks, Programmed, NamesUnique, Undecided;
    var plan := Compile(world, cfg);
    RunPodChain(world, cfg, pod, pkt, {});
    forall m: Mark | 16 !in m
      ensures RunChain(plan, SetsOf(plan.ipsets), ChainOfPod(pod, cfg), pkt, m)
           == if PodMarks(pod, world, cfg, pkt) then Fell(m + ACCEPTED) else Rejected
    {
      RunPodChain(world, cfg, pod, pkt, m);
    }
  }

  lemma {:induction false} JumpsBehave(world: World, cfg: Config, c: Chain, pkt: Packet, l: Line)
    requires NamesUnique(world) && Screened(world, cfg, pkt) && TopLevel(c)
    requires l in PodJumps(world, cfg, c)
    ensures var plan := Compile(world, cfg);
            && LineKnown(l, plan.decls, SetsOf(plan.ipsets)) && l.chain == c && l.target.Jump? && MarkFree(l.matches)
            && GateBehaves(plan, SetsOf(plan.ipsets), l.target.chain, pkt)
  {
    hide Compile, Programmed, NamesUnique, Screened, PodJumps, GateBehaves, Intercept, LineKnown;
    var pod, a := PodJumpKnown(world, cfg, c, l);
    ScreenedIsUndecided(world, cfg, pod, pkt);
    PodGateBehaves(world, cfg, pod, pkt);
  }

  lemma {:induction false} RefusedMeans(world: World, cfg: Config, c: Chain, pkt: Packet)
    requires NamesUnique(world) && Screened(world, cfg, pkt) && TopLevel(c)
    ensures var plan := Compile(world, cfg);
            Refused(plan, SetsOf(plan.ipsets), PodJumps(world, cfg, c), pkt) <==>
            exists pod :: Faces(pod, world, cfg, c, pkt) && !PodMarks(pod, world, cfg, pkt)
  {
    hide Compile, Programmed, PodJumps, NamesUnique, Screened, PodMarks, Passes, GateBehaves, Intercept;
    var plan, jumps := Compile(world, cfg), PodJumps(world, cfg, c);
    var sets := SetsOf(plan.ipsets);
    if l :| l in jumps && l.target.Jump? && MatchAll(l.matches, sets, pkt, {}) && !Passes(plan, sets, l.target.chain, pkt) {
      var pod, a := PodJumpKnown(world, cfg, c, l);
      InterceptMatches(ChainOfPod(pod, cfg), a, l, sets, pkt);
      ScreenedIsUndecided(world, cfg, pod, pkt);
      PodGateBehaves(world, cfg, pod, pkt);
      assert Faces(pod, world, cfg, c, pkt);
    }
    if pod :| Faces(pod, world, cfg, c, pkt) && !PodMarks(pod, world, cfg, pkt) {
      var l := FacedJump(world, cfg, c, sets, pkt, pod);
      ScreenedIsUndecided(world, cfg, pod, pkt);
      PodGateBehaves(world, cfg, pod, pkt);
    }
  }

  /** The exact outcome of FORWARD and OUTPUT on an undecided packet. */
  ghost function TopOutcome(world: World, cfg: Config, pkt: Packet, mark: Mark): Outcome {
    if exists pod :: Stops(pod, world, cfg, pkt) then Rejected
    else TailOutcome(world, cfg, pkt, if exists pod :: Judges(pod, world, cfg, pkt) then mark + ACCEPTED else mark)
  }

  /** FORWARD and OUTPUT look at both ends. */
  lemma {:induction false} FacingIsJudging(world: World, cfg: Config, c: Chain, pkt: Packet)
    requires Routed(c)
    ensures forall pod :: Faces(pod, world, cfg, c, pkt) <==> Judges(pod, world, cfg, pkt)
    ensures forall pod :: Faces(pod, world, cfg, c, pkt) && !PodMarks(pod, world, cfg, pkt) <==> Stops(pod, world, cfg, pkt)
  {
    hide Programmed, PodMarks;
  }

  lemma {:induction false} TopExact(world: World, cfg: Config, c: Chain, pkt: Packet, mark: Mark)
    requires NamesUnique(world) && Screened(world, cfg, pkt) && Routed(c) && 16 !in mark
    ensures Verdict(Compile(world, cfg), c, pkt, mark) == TopOutcome(world, cfg, pkt, mark)
  {
    hide Compile, Programmed, PodJumps, NamesUnique, Screened, GateBehaves, TailOutcome, Stops, Judges, Refused,
         Entered, TailLines, LineKnown, Faces, PodMarks, ProgrammedIps;
    var plan, jumps, last := Compile(world, cfg), PodJumps(world, cfg, c), Line(c, [], Jump(Tail));
    var sets := SetsOf(plan.ipsets);
    CompileDeclares(world, cfg);
    LeafRules(world, cfg);
    TopRules(world, cfg, c);
    forall l | l in jumps
      ensures LineKnown(l, plan.decls, sets) && l.chain == c && l.target.Jump? && MarkFree(l.matches)
              && GateBehaves(plan, sets, l.target.chain, pkt)
    {
      JumpsBehave(world, cfg, c, pkt, l);
    }
    RunGates(plan, sets, c, jumps, pkt, mark);
    EnteredFaces(world, cfg, c, sets, pkt);
    RefusedMeans(world, cfg, c, pkt);
    FacingIsJudging(world, cfg, c, pkt);
    RunAppend(plan, sets, c, jumps, [last], pkt, mark);
    var after := if Entered(sets, jumps, pkt) then mark + ACCEPTED else mark;
    if cfg.defaultDeny {
      LocalSetLive(world, cfg);
    }
    RunTail(plan, sets, world, cfg, pkt, after);
    RunTailJump(plan, sets, c, pkt, after, TailOutcome(world, cfg, pkt, after));
    TailNeverReturns(world, cfg, pkt, after);
  }

  lemma {:induction false} RunTailJump(plan: Plan, sets: Sets, c: Chain, pkt: Packet, mark: Mark, o: Outcome)
    requires TopLevel(c) && c in plan.decls && Tail in plan.decls && RunChain(plan, sets, Tail, pkt, mark) == o
    ensures RunRules(plan, sets, c, [Line(c, [], Jump(Tail))], pkt, mark) == o
  {
    RunOne(plan, sets, c, Line(c, [], Jump(Tail)), pkt, mark);
  }

  lemma {:induction false} TailNeverReturns(world: World, cfg: Config, pkt: Packet, mark: Mark)
    ensures !TailOutcome(world, cfg, pkt, mark).Returned?
  {
  }
}
