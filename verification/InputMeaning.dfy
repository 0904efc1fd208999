// KUBE-ROUTER-INPUT: traffic to services returns before translation, the chains of pods at the source judge
// the rest, then the tail.

module InputMeaning {
  import opened Wrappers
  import opened Net
  import opened PolicyModel
  import opened RuleLang
  import opened Synth
  import opened SynthWellFormed
  import opened PolicyMeaning
  import opened LiveSets
  import opened ChainMeaning
  import opened TopMeaning
  import opened StatefulMeaning

  /** The packet is for a cluster address, or for a node port of this node. */
  predicate ForService(cfg: Config, pkt: Packet) {
    || (exists n | n in cfg.serviceRanges :: n.addr.family == cfg.family && Contains(n, pkt.dst))
    || (cfg.nodePorts.Some? && pkt.dstLocal && cfg.nodePorts.value.0 <= pkt.dport <= cfg.nodePorts.value.1
        && (pkt.proto == "tcp" || pkt.proto == "udp" || pkt.proto == "sctp"))
  }

  /** Returning lines in a row: one match returns. */
  lemma {:induction false} RunReturns(plan: Plan, sets: Sets, c: Chain, rules: seq<Line>, pkt: Packet, mark: Mark)
    requires forall l :: l in rules ==> LineKnown(l, plan.decls, sets) && l.chain == c && l.target == Return && MarkFree(l.matches)
    ensures RunRules(plan, sets, c, rules, pkt, mark) == if Entered(sets, rules, pkt) then Returned(mark) else Fell(mark)
  {
    if rules != [] {
      var l, rest := rules[0], rules[1..];
      assert rules == [l] + rest;
      MarkFreeMatch(l.matches, sets, pkt, mark);
      assert Entered(sets, rules, pkt) <==> MatchAll(l.matches, sets, pkt, {}) || Entered(sets, rest, pkt);
      RunReturns(plan, sets, c, rest, pkt, mark);
    }
  }

  lemma {:induction false} ServiceLinesMean(ranges: seq<IpNet>, sets: Sets, pkt: Packet)
    ensures Entered(sets, ServiceLines(ranges), pkt) <==> exists n :: n in ranges && Contains(n, pkt.dst)
  {
    hide Contains;
    var lines := ServiceLines(ranges);
    forall i | 0 <= i < |ranges|
      ensures lines[i] in lines && (MatchAll(lines[i].matches, sets, pkt, {}) <==> Contains(ranges[i], pkt.dst))
    {
      MatchSingle(ToNet(ranges[i]), sets, pkt, {});
    }
    if l :| l in lines && MatchAll(l.matches, sets, pkt, {}) {
      var i :| 0 <= i < |lines| && lines[i] == l;
    }
    if n :| n in ranges && Contains(n, pkt.dst) {
      var i :| 0 <= i < |ranges| && ranges[i] == n;
    }
  }

  lemma {:induction false} NodePortMatch(proto: string, lo: nat, hi: nat, sets: Sets, pkt: Packet)
    ensures MatchAll([Proto(proto), DstTypeLocal, DPorts(lo, hi)], sets, pkt, {}) <==>
            pkt.proto == proto && pkt.dstLocal && lo <= pkt.dport <= hi
  {
    assert [Proto(proto), DstTypeLocal, DPorts(lo, hi)] == [Proto(proto)] + ([DstTypeLocal] + [DPorts(lo, hi)]);
    MatchAllAppend([Proto(proto)], [DstTypeLocal] + [DPorts(lo, hi)], sets, pkt, {});
    MatchAllAppend([DstTypeLocal], [DPorts(lo, hi)], sets, pkt, {});
    MatchSingle(Proto(proto), sets, pkt, {});
    MatchSingle(DstTypeLocal, sets, pkt, {});
    MatchSingle(DPorts(lo, hi), sets, pkt, {});
  }

  lemma {:induction false} NodePortLinesMean(ports: Option<(nat, nat)>, sets: Sets, pkt: Packet)
    ensures Entered(sets, NodePortLines(ports), pkt) <==>
            && ports.Some? && pkt.dstLocal && ports.value.0 <= pkt.dport <= ports.value.1
            && (pkt.proto == "tcp" || pkt.proto == "udp" || pkt.proto == "sctp")
  {
    hide MatchAll;
    if ports.None? {
      assert NodePortLines(ports) == [];
    } else {
      var lines, lo, hi := NodePortLines(ports), ports.value.0, ports.value.1;
      NodePortMatch("tcp", lo, hi, sets, pkt);
      NodePortMatch("udp", lo, hi, sets, pkt);
      NodePortMatch("sctp", lo, hi, sets, pkt);
      assert lines[0] in lines && lines[1] in lines && lines[2] in lines;
    }
  }

  lemma {:induction false} ReturnLinesMean(cfg: Config, sets: Sets, pkt: Packet)
    ensures Entered(sets, ReturnLines(cfg), pkt) <==> ForService(cfg, pkt)
  {
    hide ServiceLines, NodePortLines, Contains;
    EnteredAppend(sets, ServiceLines(FamilyNets(cfg.serviceRanges, cfg.family)), NodePortLines(cfg.nodePorts), pkt);
    ServiceLinesMean(FamilyNets(cfg.serviceRanges, cfg.family), sets, pkt);
    NodePortLinesMean(cfg.nodePorts, sets, pkt);
  }

  // ---- the rules of the chain ----------------------------------------------------------------------

  lemma {:induction false} InputRules(world: World, cfg: Config)
    ensures RulesOf(Compile(world, cfg).rules, RouterInput)
         == ReturnLines(cfg) + PodJumps(world, cfg, RouterInput) + [Line(RouterInput, [], Jump(Tail))]
  {
    assert PodJumps(world, cfg, RouterInput) == RulesOf(ConcatPlans(PodPlans(world.pods, world, cfg)).rules, RouterInput);
    hide Compile, BasePlan, TailLines, PolicyPlans, PodPlans, ConcatPlans, RulesOf, PodJumps, ReturnLines;
    JumpRule(RouterInput);
    RulesByPart(world, cfg, RouterInput);
    BaseSplit(cfg);
    NoPolicyRules(world, cfg, RouterInput);
    NoTailRules(cfg, RouterInput);
    AroundPods(ReturnLines(cfg), RulesOf(ConcatPlans(PolicyPlans(world.policies, world, cfg)).rules, RouterInput),
               PodJumps(world, cfg, RouterInput), RulesOf(TailLines(cfg), RouterInput), RulesOf(TAIL_JUMPS, RouterInput));
  }

  lemma {:induction false} AroundPods(base: seq<Line>, pols: seq<Line>, pods: seq<Line>, tail: seq<Line>, jumps: seq<Line>)
    requires pols == [] && tail == []
    ensures base + pols + pods + tail + jumps == base + pods + jumps
  {
  }

  // ---- verdicts --------------------------------------------------------------------------------------

  lemma {:induction false} RunReturnLines(world: World, cfg: Config, pkt: Packet, mark: Mark)
    ensures var plan := Compile(world, cfg);
            RunRules(plan, SetsOf(plan.ipsets), RouterInput, ReturnLines(cfg), pkt, mark)
            == (if ForService(cfg, pkt) then Returned(mark) else Fell(mark))
  {
    hide Compile, ReturnLines, ForService;
    var plan := Compile(world, cfg);
    CompileDeclares(world, cfg);
    forall l | l in ReturnLines(cfg)
      ensures LineKnown(l, plan.decls, SetsOf(plan.ipsets)) && l.chain == RouterInput && l.target == Return && MarkFree(l.matches)
    {
      ReturnLinesShape(cfg, l);
    }
    RunReturns(plan, SetsOf(plan.ipsets), RouterInput, ReturnLines(cfg), pkt, mark);
    ReturnLinesMean(cfg, SetsOf(plan.ipsets), pkt);
  }

  /** INPUT: traffic for a service leaves the chain untouched; otherwise the pod chains run, then the tail. */
  lemma {:induction false} InputByPart(world: World, cfg: Config, pkt: Packet, mark: Mark)
    ensures var plan := Compile(world, cfg);
            var o := RunRules(plan, SetsOf(plan.ipsets), RouterInput, PodJumps(world, cfg, RouterInput), pkt, mark);
            Verdict(plan, RouterInput, pkt, mark) ==
            (if ForService(cfg, pkt) then Fell(mark)
             else match o
                  case Fell(m) => TailOutcome(world, cfg, pkt, m)
                  case Returned(m) => Fell(m)
                  case _ => o)
  {
    hide Compile, ReturnLines, ForService, PodJumps, TailOutcome;
    var plan, jumps := Compile(world, cfg), PodJumps(world, cfg, RouterInput);
    RunReturnLines(world, cfg, pkt, mark);
    InputRules(world, cfg);
    RunAppend(plan, SetsOf(plan.ipsets), RouterInput, ReturnLines(cfg), jumps, pkt, mark);
    ThenTail(world, cfg, RouterInput, ReturnLines(cfg) + jumps, pkt, mark);
  }

  /** A programmed pod the packet comes from. */
  ghost predicate FromPod(pod: Pod, world: World, cfg: Config, pkt: Packet) {
    pod in world.pods && Programmed(pod, world, cfg) && pkt.src in FamilyIps(pod.ips, cfg.family)
  }

  /** The exact outcome of INPUT on a packet neither COMMON nor a node-local rule decides: only pods the packet
      comes from judge it. */
  lemma {:induction false} InputExact(world: World, cfg: Config, pkt: Packet, mark: Mark)
    requires NamesUnique(world) && Screened(world, cfg, pkt) && 16 !in mark
    ensures Verdict(Compile(world, cfg), RouterInput, pkt, mark) ==
            if ForService(cfg, pkt) then Fell(mark)
            else if exists pod :: FromPod(pod, world, cfg, pkt) && !PodMarks(pod, world, cfg, pkt) then Rejected
            else TailOutcome(world, cfg, pkt, if exists pod :: FromPod(pod, world, cfg, pkt) then mark + ACCEPTED else mark)
  {
    hide Compile, Programmed, PodJumps, NamesUnique, Screened, GateBehaves, TailOutcome, ForService, Refused, Entered, PodMarks, LineKnown;
    var plan, jumps := Compile(world, cfg), PodJumps(world, cfg, RouterInput);
    forall l | l in jumps
      ensures LineKnown(l, plan.decls, SetsOf(plan.ipsets)) && l.chain == RouterInput && l.target.Jump? && MarkFree(l.matches)
              && GateBehaves(plan, SetsOf(plan.ipsets), l.target.chain, pkt)
    {
      JumpsBehave(world, cfg, RouterInput, pkt, l);
    }
    RunGates(plan, SetsOf(plan.ipsets), RouterInput, jumps, pkt, mark);
    EnteredFaces(world, cfg, RouterInput, SetsOf(plan.ipsets), pkt);
    RefusedMeans(world, cfg, RouterInput, pkt);
    InputByPart(world, cfg, pkt, mark);
    assert forall pod :: Faces(pod, world, cfg, RouterInput, pkt) <==> FromPod(pod, world, cfg, pkt);
  }

  /** INPUT is stateful too, once service traffic has returned. */
  lemma {:induction false} InputStateful(world: World, cfg: Config, pkt: Packet, mark: Mark)
    requires NamesUnique(world) && CommonDecides(pkt, cfg.family)
    ensures var o := Verdict(Compile(world, cfg), RouterInput, pkt, mark);
            if ForService(cfg, pkt) then o == Fell(mark)
            else if exists pod :: FromPod(pod, world, cfg, pkt) then
              && (pkt.state == Invalid ==> o == Dropped)
              && (pkt.state == Related || pkt.state == Established ==> o == Accepted)
              && (pkt.state == New && PermittedIcmp(pkt, cfg.family) ==> o == Accepted)
            else o == TailOutcome(world, cfg, pkt, mark)
  {
    hide Compile, Programmed, PodJumps, NamesUnique, TailOutcome, ForService;
    JumpsDecide(world, cfg, RouterInput, pkt, mark);
    InputByPart(world, cfg, pkt, mark);
    assert forall pod :: Faces(pod, world, cfg, RouterInput, pkt) <==> FromPod(pod, world, cfg, pkt);
  }
}
