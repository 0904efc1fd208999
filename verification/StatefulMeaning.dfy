// The packets no policy judges: what belongs to a connection, what is invalid, the ICMP kinds every node
// needs, and traffic of the node itself to its pods.

module StatefulMeaning {
  import opened Net
  import opened PolicyModel
  import opened RuleLang
  import opened Synth
  import opened SynthWellFormed
  import opened PolicyMeaning
  import opened LiveSets
  import opened ChainMeaning
  import opened TopMeaning

  // ---- the pod chain ------------------------------------------------------------------------------

  /** COMMON in any compiled plan. */
  lemma {:induction false} CommonExact(world: World, cfg: Config, pkt: Packet, mark: Mark)
    ensures Verdict(Compile(world, cfg), Common, pkt, mark) ==
            match pkt.state
            case Invalid => Dropped
            case Related => Accepted
            case Established => Accepted
            case New => if PermittedIcmp(pkt, cfg.family) then Accepted else Fell(mark)
  {
    hide Compile, CommonLines, TailLines, PermittedIcmp;
    CompileDeclares(world, cfg);
    LeafRules(world, cfg);
    CommonRuns(Compile(world, cfg), SetsOf(Compile(world, cfg).ipsets), cfg, pkt, mark);
  }

  /** The head of a pod chain, before any policy. */
  lemma {:induction false} RunHead(
    plan: Plan, sets: Sets, cfg: Config, c: Chain, ips: seq<IpAddr>, rest: seq<Line>, pkt: Packet, mark: Mark)
    requires Common in plan.decls && RulesOf(plan.rules, Common) == CommonLines(cfg.family)
    requires LineKnown(Line(c, [], Jump(Common)), plan.decls, sets)
    requires forall l :: l in LocalAccepts(c, ips) ==> LineKnown(l, plan.decls, sets)
    ensures var o := RunRules(plan, sets, c, [Line(c, [], Jump(Common))] + (LocalAccepts(c, ips) + rest), pkt, mark);
            && (pkt.state == Invalid ==> o == Dropped)
            && (pkt.state == Related || pkt.state == Established ==> o == Accepted)
            && (pkt.state == New && (PermittedIcmp(pkt, cfg.family) || (pkt.srcLocal && pkt.dst in ips)) ==> o == Accepted)
  {
    hide CommonLines, LocalAccepts, LineKnown, PermittedIcmp, RunRules;
    RunCommonJump(plan, sets, cfg, c, pkt, mark);
    LocalAcceptsRun(plan, sets, c, ips, pkt, mark);
    RunAppend(plan, sets, c, [Line(c, [], Jump(Common))], LocalAccepts(c, ips) + rest, pkt, mark);
    RunAppend(plan, sets, c, LocalAccepts(c, ips), rest, pkt, mark);
  }

  lemma {:induction false} PodLinesHead(pod: Pod, policies: seq<NetworkPolicy>, cfg: Config) returns (rest: seq<Line>)
    ensures var c, ips := ChainOfPod(pod, cfg), FamilyIps(pod.ips, cfg.family);
            PodLines(pod, policies, cfg) == [Line(c, [], Jump(Common))] + (LocalAccepts(c, ips) + rest)
  {
    var c, ips := ChainOfPod(pod, cfg), FamilyIps(pod.ips, cfg.family);
    rest := Dispatch(c, ips, policies, cfg) + Closing(c);
  }

  /** A pod's chain decides these packets before it comes to any policy. */
  lemma {:induction false} PodChainStateful(world: World, cfg: Config, pod: Pod, pkt: Packet, mark: Mark)
    requires NamesUnique(world) && pod in world.pods && Programmed(pod, world, cfg)
    ensures var o := Verdict(Compile(world, cfg), ChainOfPod(pod, cfg), pkt, mark);
            && (pkt.state == Invalid ==> o == Dropped)
            && (pkt.state == Related || pkt.state == Established ==> o == Accepted)
            && (pkt.state == New && PermittedIcmp(pkt, cfg.family) ==> o == Accepted)
            && (pkt.state == New && pkt.srcLocal && pkt.dst in pod.ips && pkt.dst.family == cfg.family ==> o == Accepted)
  {
    hide Compile, PodLines, LocalAccepts, Programmed, NamesUnique, CommonLines, LineKnown, PermittedIcmp, RunRules, TailLines, Selecting;
    var plan, c, ips, policies := Compile(world, cfg), ChainOfPod(pod, cfg), FamilyIps(pod.ips, cfg.family), Selecting(world.policies, pod);
    var rest := PodLinesHead(pod, policies, cfg);
    var jump := Line(c, [], Jump(Common));
    PodChainRules(world, cfg, pod);
    CompileDeclares(world, cfg);
    LeafRules(world, cfg);
    PodLinesAllKnown(world, cfg, pod);
    assert jump in PodLines(pod, policies, cfg);
    assert forall l :: l in LocalAccepts(c, ips) ==> l in PodLines(pod, policies, cfg);
    RunHead(plan, SetsOf(plan.ipsets), cfg, c, ips, rest, pkt, mark);
  }

  // ---- the top-level chains ------------------------------------------------------------------------

  /** Lines that all jump to chains with one and the same final outcome. */
  lemma {:induction false} RunsInto(plan: Plan, sets: Sets, c: Chain, lines: seq<Line>, pkt: Packet, mark: Mark, o: Outcome)
    requires forall l :: l in lines ==> LineKnown(l, plan.decls, sets) && l.chain == c && l.target.Jump? && MarkFree(l.matches)
                                        && RunChain(plan, sets, l.target.chain, pkt, mark) == o
    requires !o.Fell?
    ensures RunRules(plan, sets, c, lines, pkt, mark) == if Entered(sets, lines, pkt) then o else Fell(mark)
  {
    if lines != [] {
      var l, rest := lines[0], lines[1..];
      assert lines == [l] + rest;
      MarkFreeMatch(l.matches, sets, pkt, mark);
      assert Entered(sets, lines, pkt) <==> MatchAll(l.matches, sets, pkt, {}) || Entered(sets, rest, pkt);
      RunsInto(plan, sets, c, rest, pkt, mark, o);
    }
  }

  /** What the pod chains make of a packet COMMON decides. */
  lemma {:induction false} JumpsDecide(world: World, cfg: Config, c: Chain, pkt: Packet, mark: Mark)
    requires NamesUnique(world) && TopLevel(c) && CommonDecides(pkt, cfg.family)
    ensures var plan := Compile(world, cfg);
            RunRules(plan, SetsOf(plan.ipsets), c, PodJumps(world, cfg, c), pkt, mark) ==
            if exists pod :: Faces(pod, world, cfg, c, pkt) then (if pkt.state == Invalid then Dropped else Accepted) else Fell(mark)
  {
    hide Compile, Programmed, PodJumps, NamesUnique, LineKnown, PermittedIcmp, Faces, Entered;
    var plan, jumps := Compile(world, cfg), PodJumps(world, cfg, c);
    var sets, o := SetsOf(plan.ipsets), if pkt.state == Invalid then Dropped else Accepted;
    forall l | l in jumps
      ensures LineKnown(l, plan.decls, sets) && l.chain == c && l.target.Jump? && MarkFree(l.matches)
              && RunChain(plan, sets, l.target.chain, pkt, mark) == o
    {
      var pod, a := PodJumpKnown(world, cfg, c, l);
      PodChainStateful(world, cfg, pod, pkt, mark);
    }
    RunsInto(plan, sets, c, jumps, pkt, mark, o);
    EnteredFaces(world, cfg, c, sets, pkt);
  }

  /** FORWARD and OUTPUT are stateful: with a programmed pod at one end, replies and related packets are
      accepted, invalid ones dropped, and the listed ICMP kinds accepted, whatever the policies; without one,
      the tail decides. */
  lemma {:induction false} StatefulExact(world: World, cfg: Config, c: Chain, pkt: Packet, mark: Mark)
    requires NamesUnique(world) && Routed(c) && CommonDecides(pkt, cfg.family)
    ensures var o := Verdict(Compile(world, cfg), c, pkt, mark);
            if exists pod :: Judges(pod, world, cfg, pkt) then
              && (pkt.state == Invalid ==> o == Dropped)
              && (pkt.state == Related || pkt.state == Established ==> o == Accepted)
              && (pkt.state == New && PermittedIcmp(pkt, cfg.family) ==> o == Accepted)
            else o == TailOutcome(world, cfg, pkt, mark)
  {
    assert pkt.state == New ==> PermittedIcmp(pkt, cfg.family);
    hide Compile, Programmed, PodJumps, NamesUnique, TailOutcome, Judges, Faces, PermittedIcmp;
    TopRules(world, cfg, c);
    JumpsDecide(world, cfg, c, pkt, mark);
    FacingIsJudging(world, cfg, c, pkt);
    ThenTail(world, cfg, c, PodJumps(world, cfg, c), pkt, mark);
  }

  /** A top-level chain ends with the tail. */
  lemma {:induction false} ThenTail(world: World, cfg: Config, c: Chain, lines: seq<Line>, pkt: Packet, mark: Mark)
    requires TopLevel(c)
    requires RulesOf(Compile(world, cfg).rules, c) == lines + [Line(c, [], Jump(Tail))]
    ensures var plan := Compile(world, cfg);
            var o := RunRules(plan, SetsOf(plan.ipsets), c, lines, pkt, mark);
            Verdict(plan, c, pkt, mark) ==
            match o
            case Fell(m) => TailOutcome(world, cfg, pkt, m)
            case Returned(m) => Fell(m)
            case _ => o
  {
    hide Compile, TailLines, TailOutcome;
    var plan := Compile(world, cfg);
    var sets := SetsOf(plan.ipsets);
    CompileDeclares(world, cfg);
    LeafRules(world, cfg);
    if cfg.defaultDeny {
      LocalSetLive(world, cfg);
    }
    RunAppend(plan, sets, c, lines, [Line(c, [], Jump(Tail))], pkt, mark);
    var o := RunRules(plan, sets, c, lines, pkt, mark);
    if o.Fell? {
      RunTail(plan, sets, world, cfg, pkt, o.mark);
      RunTailJump(plan, sets, c, pkt, o.mark, TailOutcome(world, cfg, pkt, o.mark));
      TailNeverReturns(world, cfg, pkt, o.mark);
    }
  }

  // ---- traffic of the node itself -------------------------------------------------------------------

  ghost predicate AcceptsOutright(plan: Plan, sets: Sets, t: Chain, pkt: Packet) {
    forall m: Mark :: RunChain(plan, sets, t, pkt, m) == Accepted
  }

  /** Jumps to chains that accept outright, or behave as gates, at least one of the first kind entered. */
  lemma {:induction false} RunsToAccept(plan: Plan, sets: Sets, c: Chain, lines: seq<Line>, pkt: Packet, mark: Mark)
    requires 16 !in mark
    requires forall l :: l in lines ==> LineKnown(l, plan.decls, sets) && l.chain == c && l.target.Jump? && MarkFree(l.matches)
                                        && (AcceptsOutright(plan, sets, l.target.chain, pkt) || GateBehaves(plan, sets, l.target.chain, pkt))
    requires exists l :: l in lines && MatchAll(l.matches, sets, pkt, {}) && AcceptsOutright(plan, sets, l.target.chain, pkt)
    ensures RunRules(plan, sets, c, lines, pkt, mark) == Accepted || RunRules(plan, sets, c, lines, pkt, mark) == Rejected
    ensures (forall l :: l in lines && MatchAll(l.matches, sets, pkt, {}) ==>
               AcceptsOutright(plan, sets, l.target.chain, pkt) || Passes(plan, sets, l.target.chain, pkt))
            ==> RunRules(plan, sets, c, lines, pkt, mark) == Accepted
  {
    var l, rest := lines[0], lines[1..];
    assert lines == [l] + rest;
    MarkFreeMatch(l.matches, sets, pkt, mark);
    if !MatchAll(l.matches, sets, pkt, {}) {
      RunsToAccept(plan, sets, c, rest, pkt, mark);
    } else if AcceptsOutright(plan, sets, l.target.chain, pkt) {
      assert RunChain(plan, sets, l.target.chain, pkt, mark) == Accepted;
    } else if Passes(plan, sets, l.target.chain, pkt) {
      RunsToAccept(plan, sets, c, rest, pkt, mark + ACCEPTED);
    }
  }

  /** Every pod chain, on a new packet of the node itself that no ICMP rule permits. */
  lemma {:induction false} NodeLocalJump(world: World, cfg: Config, c: Chain, pkt: Packet, l: Line)
    returns (pod: Pod)
    requires NamesUnique(world) && TopLevel(c) && l in PodJumps(world, cfg, c)
    requires !CommonDecides(pkt, cfg.family) && pkt.srcLocal && pkt.dst.family == cfg.family
    ensures var plan := Compile(world, cfg); LineKnown(l, plan.decls, SetsOf(plan.ipsets))
    ensures l.chain == c && l.target == Jump(ChainOfPod(pod, cfg)) && MarkFree(l.matches)
    ensures MatchAll(l.matches, SetsOf(Compile(world, cfg).ipsets), pkt, {}) ==> Faces(pod, world, cfg, c, pkt)
    ensures var plan := Compile(world, cfg);
            if pkt.dst in pod.ips then AcceptsOutright(plan, SetsOf(plan.ipsets), l.target.chain, pkt)
            else && GateBehaves(plan, SetsOf(plan.ipsets), l.target.chain, pkt)
                 && (Passes(plan, SetsOf(plan.ipsets), l.target.chain, pkt) <==> PodMarks(pod, world, cfg, pkt))
  {
    hide Compile, Programmed, PodJumps, NamesUnique, LineKnown, PermittedIcmp, GateBehaves, Passes, PodMarks, Intercept;
    var plan := Compile(world, cfg);
    var sets := SetsOf(plan.ipsets);
    var a: IpAddr;
    pod, a := PodJumpKnown(world, cfg, c, l);
    if MatchAll(l.matches, sets, pkt, {}) {
      InterceptMatches(ChainOfPod(pod, cfg), a, l, sets, pkt);
    }
    if pkt.dst in pod.ips {
      forall m: Mark
        ensures RunChain(plan, sets, l.target.chain, pkt, m) == Accepted
      {
        PodChainStateful(world, cfg, pod, pkt, m);
      }
    } else {
      assert Undecided(pod, cfg, pkt);
      PodGateBehaves(world, cfg, pod, pkt);
    }
  }

  /** New traffic of the node itself to a programmed pod: accepted, unless a programmed pod at its source
      alone stops it first. */
  lemma {:induction false} NodeLocalAccepted(world: World, cfg: Config, c: Chain, pkt: Packet, mark: Mark)
    requires NamesUnique(world) && Routed(c) && 16 !in mark && pkt.state == New && !PermittedIcmp(pkt, cfg.family)
    requires pkt.srcLocal && pkt.dst.family == cfg.family
    requires exists pod :: pod in world.pods && Programmed(pod, world, cfg) && pkt.dst in pod.ips
    ensures var o := Verdict(Compile(world, cfg), c, pkt, mark);
            && (o == Accepted || o == Rejected)
            && ((forall pod :: Stops(pod, world, cfg, pkt) ==> pkt.dst in pod.ips) ==> o == Accepted)
  {
    hide Compile, Programmed, PodJumps, NamesUnique, TailOutcome, LineKnown, PermittedIcmp, GateBehaves, Passes, AcceptsOutright, PodMarks, Faces;
    var plan, jumps := Compile(world, cfg), PodJumps(world, cfg, c);
    var sets := SetsOf(plan.ipsets);
    FacingIsJudging(world, cfg, c, pkt);
    forall l | l in jumps
      ensures LineKnown(l, plan.decls, sets) && l.chain == c && l.target.Jump? && MarkFree(l.matches)
      ensures AcceptsOutright(plan, sets, l.target.chain, pkt) || GateBehaves(plan, sets, l.target.chain, pkt)
      ensures MatchAll(l.matches, sets, pkt, {}) && (forall pod :: Stops(pod, world, cfg, pkt) ==> pkt.dst in pod.ips) ==>
                AcceptsOutright(plan, sets, l.target.chain, pkt) || Passes(plan, sets, l.target.chain, pkt)
    {
      var pod := NodeLocalJump(world, cfg, c, pkt, l);
    }
    var pod :| pod in world.pods && Programmed(pod, world, cfg) && pkt.dst in pod.ips;
    assert Judges(pod, world, cfg, pkt);
    var l := FacedJump(world, cfg, c, sets, pkt, pod);
    forall m: Mark
      ensures RunChain(plan, sets, l.target.chain, pkt, m) == Accepted
    {
      PodChainStateful(world, cfg, pod, pkt, m);
    }
    assert AcceptsOutright(plan, sets, l.target.chain, pkt) by {
      OutrightBy(plan, sets, l.target.chain, pkt);
    }
    RunsToAccept(plan, sets, c, jumps, pkt, mark);
    TopRules(world, cfg, c);
    ThenTail(world, cfg, c, jumps, pkt, mark);
  }

  lemma {:induction false} OutrightBy(plan: Plan, sets: Sets, t: Chain, pkt: Packet)
    requires forall m: Mark :: RunChain(plan, sets, t, pkt, m) == Accepted
    ensures AcceptsOutright(plan, sets, t, pkt)
  {
  }
}
