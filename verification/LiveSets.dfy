// The live contents of every ipset a policy chain reads: whatever order and however often the
// compiler pushed a set, the last push holds what the policy means by that name.

module LiveSets {
  import opened Net
  import opened PolicyModel
  import opened RuleLang
  import opened Synth
  import opened SynthWellFormed
  import opened PolicyMeaning

  /** Kubernetes names identify: no two policies and no two pods share namespace and name. */
  ghost predicate NamesUnique(world: World) {
    && (forall i, j :: 0 <= i < j < |world.policies| ==>
          world.policies[i].namespace != world.policies[j].namespace || world.policies[i].name != world.policies[j].name)
    && (forall i, j :: 0 <= i < j < |world.pods| ==>
          world.pods[i].namespace != world.pods[j].namespace || world.pods[i].name != world.pods[j].name)
  }

  /** The contents a policy means by one of its set names. */
  ghost predicate Means(pol: NetworkPolicy, kind: SetKind, c: SetContents, world: World, family: Family) {
    match kind
    case Targets(dir) => c == HashIp(SelectedIps(pol, world.pods, family))
    case PeerPods(dir, i) =>
      i < |DirRules(pol, dir)| && c == HashIp(ResolveRule(RuleRef(pol, dir, i, family), DirRules(pol, dir)[i], world).ips)
    case PeerBlocks(dir, i) =>
      i < |DirRules(pol, dir)| && c == HashNet(ResolveRule(RuleRef(pol, dir, i, family), DirRules(pol, dir)[i], world).nets)
    case NamedPort(dir, i, ep) =>
      && i < |DirRules(pol, dir)| && Emits(RuleRef(pol, dir, i, family), world)
      && exists port :: port in DirRules(pol, dir)[i].ports && NamedMeans(RuleRef(pol, dir, i, family), port, ep, c, world)
  }

  /** The rule has a peer to match, so its ports are emitted at all. */
  predicate Emits(ref: RuleRef, world: World)
    requires ref.rule < |DirRules(ref.pol, ref.dir)|
  {
    PeerMatches(ref, ResolveRule(ref, DirRules(ref.pol, ref.dir)[ref.rule], world)) != []
  }

  /** `c` is the set of the port's group number `ep`, in ascending order of the numbers its name resolves to. */
  ghost predicate NamedMeans(ref: RuleRef, port: PortSpec, ep: nat, c: SetContents, world: World)
    requires ref.rule < |DirRules(ref.pol, ref.dir)|
  {
    && port.port.Name?
    && var r := ResolveRule(ref, DirRules(ref.pol, ref.dir)[ref.rule], world);
       var groups := NamedGroups(Receivers(ref, r, world.pods), port.port.name, port.protocol, ref.family);
       var keys := Ascending(groups.Keys);
       ep < |keys| && c == HashIp(groups[keys[ep]])
  }

  /** Any two named ports of the rule have the same addresses at every group number both reach. Group numbers
      restart for each port, and the set's name does not mention the port. */
  ghost predicate GroupsAgree(ref: RuleRef, world: World)
    requires ref.rule < |DirRules(ref.pol, ref.dir)|
  {
    var ports := DirRules(ref.pol, ref.dir)[ref.rule].ports;
    forall p, q, ep: nat, c, d :: p in ports && q in ports && NamedMeans(ref, p, ep, c, world) && NamedMeans(ref, q, ep, d, world)
                                  ==> c == d
  }

  ghost predicate RuleAgrees(ref: RuleRef, world: World)
    requires ref.rule < |DirRules(ref.pol, ref.dir)|
  {
    Emits(ref, world) ==> GroupsAgree(ref, world)
  }

  /** The condition under which no two named ports of a rule get in each other's way. */
  ghost predicate NamedPortsAgree(world: World, family: Family) {
    forall pol, dir, i: nat :: pol in world.policies && Governs(pol, dir) && i < |DirRules(pol, dir)| ==>
                                 RuleAgrees(RuleRef(pol, dir, i, family), world)
  }

  /** One named port a rule is enough. */
  lemma {:induction false} SinglePortsAgree(world: World, family: Family)
    requires forall pol, dir, i: nat, p, q ::
               (pol in world.policies && Governs(pol, dir) && i < |DirRules(pol, dir)| && p in DirRules(pol, dir)[i].ports
                && q in DirRules(pol, dir)[i].ports && p.port.Name? && q.port.Name?)
               ==> p == q
    ensures NamedPortsAgree(world, family)
  {
  }

  /** Then a set name stands for a single value. */
  lemma {:induction false} MeansOne(pol: NetworkPolicy, kind: SetKind, c: SetContents, d: SetContents, world: World, family: Family)
    requires kind.NamedPort? && kind.rule < |DirRules(pol, kind.dir)| ==> RuleAgrees(RuleRef(pol, kind.dir, kind.rule, family), world)
    requires Means(pol, kind, c, world, family) && Means(pol, kind, d, world, family)
    ensures c == d
  {
    hide NamedMeans, Emits;
  }

  /** `s` is one of the policy's own sets, with the contents the policy means. */
  ghost predicate OwnSet(s: IpsetPlan, pol: NetworkPolicy, world: World, family: Family) {
    && s.name.PolicySet?
    && s.name == PolicySet(pol.namespace, pol.name, s.name.kind, family)
    && s.family == family
    && Governs(pol, s.name.kind.dir)
    && Means(pol, s.name.kind, s.contents, world, family)
  }

  ghost predicate OwnSets(sets: seq<IpsetPlan>, pol: NetworkPolicy, world: World, family: Family) {
    forall s :: s in sets ==> OwnSet(s, pol, world, family)
  }

  lemma {:induction false} ConcatOwn(es: seq<Emission>, pol: NetworkPolicy, world: World, family: Family)
    requires forall i :: 0 <= i < |es| ==> OwnSets(es[i].sets, pol, world, family)
    ensures OwnSets(Concat(es).sets, pol, world, family)
  {
    forall s | s in Concat(es).sets
      ensures OwnSet(s, pol, world, family)
    {
      ConcatMembers(es, [], s);
      var i :| 0 <= i < |es| && s in es[i].sets;
    }
  }

  /** `ref` points at a rule of its own policy. */
  ghost predicate Placed(ref: RuleRef) {
    ref.rule < |DirRules(ref.pol, ref.dir)| && Governs(ref.pol, ref.dir)
  }

  lemma {:induction false} PortOwn(ref: RuleRef, peer: seq<Match>, receivers: seq<Pod>, port: PortSpec, world: World)
    requires Placed(ref) && port in DirRules(ref.pol, ref.dir)[ref.rule].ports
    requires receivers == Receivers(ref, ResolveRule(ref, DirRules(ref.pol, ref.dir)[ref.rule], world), world.pods)
    requires Emits(ref, world)
    ensures OwnSets(PortEmission(ref, peer, receivers, port).sets, ref.pol, world, ref.family)
  {
    if port.port.Name? {
      var groups := NamedGroups(receivers, port.port.name, port.protocol, ref.family);
      var keys := Ascending(groups.Keys);
      var es := NamedEmissions(ref, peer, port.protocol, groups, keys);
      forall i | 0 <= i < |es|
        ensures OwnSets(es[i].sets, ref.pol, world, ref.family)
      {
        NamedGroupOwn(ref, peer, receivers, port, i, world);
      }
      ConcatOwn(es, ref.pol, world, ref.family);
    }
  }

  lemma {:induction false} NamedGroupOwn(
    ref: RuleRef, peer: seq<Match>, receivers: seq<Pod>, port: PortSpec, ep: nat, world: World)
    requires Placed(ref) && port in DirRules(ref.pol, ref.dir)[ref.rule].ports && port.port.Name?
    requires receivers == Receivers(ref, ResolveRule(ref, DirRules(ref.pol, ref.dir)[ref.rule], world), world.pods)
    requires Emits(ref, world)
    requires ep < |Ascending(NamedGroups(receivers, port.port.name, port.protocol, ref.family).Keys)|
    ensures var groups := NamedGroups(receivers, port.port.name, port.protocol, ref.family);
            var n := Ascending(groups.Keys)[ep];
            OwnSets(NamedGroup(ref, peer, port.protocol, ep, n, groups[n]).sets, ref.pol, world, ref.family)
  {
    var groups := NamedGroups(receivers, port.port.name, port.protocol, ref.family);
    var n := Ascending(groups.Keys)[ep];
    assert NamedMeans(ref, port, ep, HashIp(groups[n]), world);
    assert Means(ref.pol, NamedPort(ref.dir, ref.rule, ep), HashIp(groups[n]), world, ref.family) by {
      assert RuleRef(ref.pol, ref.dir, ref.rule, ref.family) == ref;
    }
  }

  lemma {:induction false} PeerOwn(ref: RuleRef, peer: seq<Match>, receivers: seq<Pod>, world: World)
    requires Placed(ref)
    requires receivers == Receivers(ref, ResolveRule(ref, DirRules(ref.pol, ref.dir)[ref.rule], world), world.pods)
    requires Emits(ref, world)
    ensures OwnSets(PeerEmission(ref, peer, receivers, DirRules(ref.pol, ref.dir)[ref.rule].ports).sets, ref.pol, world, ref.family)
  {
    var ports := DirRules(ref.pol, ref.dir)[ref.rule].ports;
    var ps := PortEmissions(ref, peer, receivers, ports);
    forall k | 0 <= k < |ps|
      ensures OwnSets(ps[k].sets, ref.pol, world, ref.family)
    {
      PortOwn(ref, peer, receivers, ports[k], world);
    }
    ConcatOwn(ps, ref.pol, world, ref.family);
  }

  lemma {:induction false} PeerSetsOwn(ref: RuleRef, world: World)
    requires Placed(ref)
    ensures OwnSets(PeerSets(ref, ResolveRule(ref, DirRules(ref.pol, ref.dir)[ref.rule], world)), ref.pol, world, ref.family)
  {
    var r := ResolveRule(ref, DirRules(ref.pol, ref.dir)[ref.rule], world);
    assert RuleRef(ref.pol, ref.dir, ref.rule, ref.family) == ref;
    assert Means(ref.pol, PeerPods(ref.dir, ref.rule), HashIp(r.ips), world, ref.family);
    assert Means(ref.pol, PeerBlocks(ref.dir, ref.rule), HashNet(r.nets), world, ref.family);
  }

  lemma {:induction false} RuleOwn(ref: RuleRef, world: World)
    requires Placed(ref)
    ensures OwnSets(RuleEmission(ref, DirRules(ref.pol, ref.dir)[ref.rule], world).sets, ref.pol, world, ref.family)
  {
    var rule := DirRules(ref.pol, ref.dir)[ref.rule];
    var r := ResolveRule(ref, rule, world);
    var peers, receivers := PeerMatches(ref, r), Receivers(ref, r, world.pods);
    var es := PeerEmissions(ref, peers, receivers, rule.ports);
    forall i | 0 <= i < |es|
      ensures OwnSets(es[i].sets, ref.pol, world, ref.family)
    {
      PeerOwn(ref, peers[i], receivers, world);
    }
    ConcatOwn(es, ref.pol, world, ref.family);
    PeerSetsOwn(ref, world);
  }

  lemma {:induction false} PolicyOwn(pol: NetworkPolicy, world: World, family: Family)
    ensures OwnSets(PolicyEmission(pol, world, family).sets, pol, world, family)
  {
    forall dir: Direction | Governs(pol, dir)
      ensures OwnSets(DirEmission(pol, dir, world, family).sets, pol, world, family)
    {
      var rules := DirRules(pol, dir);
      var es := RuleEmissions(pol, dir, rules, world, family);
      forall i | 0 <= i < |es|
        ensures OwnSets(es[i].sets, pol, world, family)
      {
        RuleOwn(RuleRef(pol, dir, i, family), world);
      }
      ConcatOwn(es, pol, world, family);
    }
    assert pol.hasIngress ==> Governs(pol, Ingress);
    assert pol.hasEgress ==> Governs(pol, Egress);
  }

  /** Which part of the plan a set comes from. */
  lemma {:induction false} SetSource(world: World, cfg: Config, s: IpsetPlan)
    requires s in Compile(world, cfg).ipsets
    ensures (exists pol :: pol in world.policies && Applies(pol) && s in PolicyEmission(pol, world, cfg.family).sets)
            || (cfg.defaultDeny && s == IpsetPlan(LocalPods(cfg.family), cfg.family, HashIp(ProgrammedIps(world.pods, world, cfg))))
  {
    CompileParts(world, cfg);
    var ps := PolicyPlans(world.policies, world, cfg);
    if s in ConcatPlans(ps).ipsets {
      ConcatSets(ps, s);
      var i :| 0 <= i < |ps| && s in ps[i].ipsets;
      assert world.policies[i] in world.policies;
    } else {
      assert s in TailPlan(world, cfg).ipsets;
    }
  }

  /** The live sets of a plan are what its policies mean. */
  lemma {:induction false} PolicySetsLive(world: World, cfg: Config, pol: NetworkPolicy)
    requires NamesUnique(world) && NamedPortsAgree(world, cfg.family)
    requires pol in world.policies && Applies(pol)
    ensures Agrees(SetsOf(Compile(world, cfg).ipsets), PolicyEmission(pol, world, cfg.family).sets)
  {
    var ipsets := Compile(world, cfg).ipsets;
    var sets := SetsOf(ipsets);
    SetsOfKeys(ipsets);
    CompileSets(world, cfg);
    forall s | s in PolicyEmission(pol, world, cfg.family).sets
      ensures s.name in sets && sets[s.name] == s.contents
    {
      assert s in PolicyPlan(pol, world, cfg).ipsets;
      var t :| t in ipsets && t.name == s.name && t.contents == sets[s.name];
      PolicyOwn(pol, world, cfg.family);
      SetSource(world, cfg, t);
      var other :| other in world.policies && Applies(other) && t in PolicyEmission(other, world, cfg.family).sets;
      PolicyOwn(other, world, cfg.family);
      SamePolicy(world, pol, other);
      MeansOne(pol, s.name.kind, s.contents, t.contents, world, cfg.family);
    }
  }

  lemma {:induction false} SamePolicy(world: World, a: NetworkPolicy, b: NetworkPolicy)
    requires NamesUnique(world) && a in world.policies && b in world.policies
    requires a.namespace == b.namespace && a.name == b.name
    ensures a == b
  {
    var i :| 0 <= i < |world.policies| && world.policies[i] == a;
    var j :| 0 <= j < |world.policies| && world.policies[j] == b;
    assert i == j;
  }

  /** The local-pods set holds exactly the programmed addresses. */
  lemma {:induction false} LocalSetLive(world: World, cfg: Config)
    requires cfg.defaultDeny
    ensures var sets := SetsOf(Compile(world, cfg).ipsets);
            LocalPods(cfg.family) in sets && sets[LocalPods(cfg.family)] == HashIp(ProgrammedIps(world.pods, world, cfg))
  {
    var ipsets := Compile(world, cfg).ipsets;
    CompileSets(world, cfg);
    SetsOfKeys(ipsets);
    var t :| t in ipsets && t.name == LocalPods(cfg.family) && t.contents == SetsOf(ipsets)[LocalPods(cfg.family)];
    SetSource(world, cfg, t);
    if t != IpsetPlan(LocalPods(cfg.family), cfg.family, HashIp(ProgrammedIps(world.pods, world, cfg))) {
      var pol :| pol in world.policies && t in PolicyEmission(pol, world, cfg.family).sets;
      PolicyOwn(pol, world, cfg.family);
    }
  }

  // ---- named ports ------------------------------------------------------------------

  /** The live sets hold every pushed set iff no name was pushed with two contents: the last push wins. */
  lemma {:induction false} SetsFaithfulIff(ipsets: seq<IpsetPlan>)
    ensures Agrees(SetsOf(ipsets), ipsets) <==>
            forall s, t :: s in ipsets && t in ipsets && s.name == t.name ==> s.contents == t.contents
  {
    SetsOfKeys(ipsets);
    if forall s, t :: s in ipsets && t in ipsets && s.name == t.name ==> s.contents == t.contents {
      forall s | s in ipsets
        ensures s.name in SetsOf(ipsets) && SetsOf(ipsets)[s.name] == s.contents
      {
        var t :| t in ipsets && t.name == s.name && t.contents == SetsOf(ipsets)[s.name];
      }
    }
  }

  /** A port's group is pushed, under a name that does not mention the port. */
  lemma {:induction false} GroupPushed(ref: RuleRef, port: PortSpec, ep: nat, c: SetContents, world: World)
    requires Placed(ref) && Emits(ref, world) && port in DirRules(ref.pol, ref.dir)[ref.rule].ports && NamedMeans(ref, port, ep, c, world)
    ensures IpsetPlan(ref.SetName(NamedPort(ref.dir, ref.rule, ep)), ref.family, c) in PolicyEmission(ref.pol, world, ref.family).sets
  {
    hide RuleEmission, PortEmission, PeerEmission, PolicyEmission;
    var rule := DirRules(ref.pol, ref.dir)[ref.rule];
    var r := ResolveRule(ref, rule, world);
    var peer, receivers := PeerMatches(ref, r)[0], Receivers(ref, r, world.pods);
    var s := IpsetPlan(ref.SetName(NamedPort(ref.dir, ref.rule, ep)), ref.family, c);
    PortGroupPushed(ref, peer, receivers, port, ep, s);
    PortPushed(ref, peer, receivers, rule.ports, port, s);
    PeerPushed(ref, rule, world, s);
    RulePushed(ref, world, s);
  }

  lemma {:induction false} PeerPushed(ref: RuleRef, rule: Rule, world: World, s: IpsetPlan)
    requires var r := ResolveRule(ref, rule, world);
             PeerMatches(ref, r) != []
             && s in PeerEmission(ref, PeerMatches(ref, r)[0], Receivers(ref, r, world.pods), rule.ports).sets
    ensures s in RuleEmission(ref, rule, world).sets
  {
    hide PeerEmission, PeerMatches, ResolveRule;
    var r := ResolveRule(ref, rule, world);
    var es := PeerEmissions(ref, PeerMatches(ref, r), Receivers(ref, r, world.pods), rule.ports);
    assert s in es[0].sets;
    ConcatMembers(es, [], s);
  }

  lemma {:induction false} RulePushed(ref: RuleRef, world: World, s: IpsetPlan)
    requires Placed(ref) && s in RuleEmission(ref, DirRules(ref.pol, ref.dir)[ref.rule], world).sets
    ensures s in PolicyEmission(ref.pol, world, ref.family).sets
  {
    hide RuleEmission;
    var all := RuleEmissions(ref.pol, ref.dir, DirRules(ref.pol, ref.dir), world, ref.family);
    assert RuleRef(ref.pol, ref.dir, ref.rule, ref.family) == ref;
    assert s in all[ref.rule].sets;
    ConcatMembers(all, [], s);
    assert s in DirEmission(ref.pol, ref.dir, world, ref.family).sets;
  }

  lemma {:induction false} PortGroupPushed(ref: RuleRef, peer: seq<Match>, receivers: seq<Pod>, port: PortSpec, ep: nat, s: IpsetPlan)
    requires port.port.Name?
    requires var groups := NamedGroups(receivers, port.port.name, port.protocol, ref.family);
             var keys := Ascending(groups.Keys);
             ep < |keys| && s == IpsetPlan(ref.SetName(NamedPort(ref.dir, ref.rule, ep)), ref.family, HashIp(groups[keys[ep]]))
    ensures s in PortEmission(ref, peer, receivers, port).sets
  {
    var groups := NamedGroups(receivers, port.port.name, port.protocol, ref.family);
    var es := NamedEmissions(ref, peer, port.protocol, groups, Ascending(groups.Keys));
    assert s == es[ep].sets[0];
    assert s in es[ep].sets;
    ConcatMembers(es, [], s);
  }

  lemma {:induction false} PortPushed(ref: RuleRef, peer: seq<Match>, receivers: seq<Pod>, ports: seq<PortSpec>, port: PortSpec, s: IpsetPlan)
    requires port in ports && s in PortEmission(ref, peer, receivers, port).sets
    ensures s in PeerEmission(ref, peer, receivers, ports).sets
  {
    var es := PortEmissions(ref, peer, receivers, ports);
    var k :| 0 <= k < |ports| && ports[k] == port;
    assert s in es[k].sets;
    ConcatMembers(es, [], s);
  }

  lemma {:induction false} PolicySetsPushed(pol: NetworkPolicy, world: World, cfg: Config, s: IpsetPlan)
    requires pol in world.policies && Applies(pol) && s in PolicyEmission(pol, world, cfg.family).sets
    ensures s in Compile(world, cfg).ipsets
  {
    CompileParts(world, cfg);
    var i :| 0 <= i < |world.policies| && world.policies[i] == pol;
    assert s in PolicyPlans(world.policies, world, cfg)[i].ipsets;
    ConcatSets(PolicyPlans(world.policies, world, cfg), s);
  }

  /** The live sets are what the compiler pushed exactly when named ports of one rule agree on their groups:
      otherwise the later port's addresses replace the earlier one's. */
  lemma {:induction false} LiveSetsFaithfulIff(world: World, cfg: Config)
    requires NamesUnique(world)
    ensures var ipsets := Compile(world, cfg).ipsets;
            Agrees(SetsOf(ipsets), ipsets) <==> NamedPortsAgree(world, cfg.family)
  {
    hide Compile, NamesUnique, PolicyEmission;
    var ipsets := Compile(world, cfg).ipsets;
    if NamedPortsAgree(world, cfg.family) {
      forall s | s in ipsets
        ensures s.name in SetsOf(ipsets) && SetsOf(ipsets)[s.name] == s.contents
      {
        SetSource(world, cfg, s);
        if pol :| pol in world.policies && Applies(pol) && s in PolicyEmission(pol, world, cfg.family).sets {
          PolicySetsLive(world, cfg, pol);
        } else {
          LocalSetLive(world, cfg);
        }
      }
    }
    if Agrees(SetsOf(ipsets), ipsets) {
      SetsFaithfulIff(ipsets);
      forall pol, dir, i: nat | pol in world.policies && Governs(pol, dir) && i < |DirRules(pol, dir)|
        ensures RuleAgrees(RuleRef(pol, dir, i, cfg.family), world)
      {
        AgreeingRule(world, cfg, RuleRef(pol, dir, i, cfg.family));
      }
    }
  }

  lemma {:induction false} AgreeingRule(world: World, cfg: Config, ref: RuleRef)
    requires Placed(ref) && ref.pol in world.policies && ref.family == cfg.family
    requires forall s, t :: s in Compile(world, cfg).ipsets && t in Compile(world, cfg).ipsets && s.name == t.name ==> s.contents == t.contents
    ensures RuleAgrees(ref, world)
  {
    hide Compile, PolicyEmission, NamedMeans, Emits;
    var ports := DirRules(ref.pol, ref.dir)[ref.rule].ports;
    forall p, q, ep: nat, c, d |
      Emits(ref, world) && p in ports && q in ports && NamedMeans(ref, p, ep, c, world) && NamedMeans(ref, q, ep, d, world)
      ensures c == d
    {
      var name := ref.SetName(NamedPort(ref.dir, ref.rule, ep));
      GroupPushed(ref, p, ep, c, world);
      GroupPushed(ref, q, ep, d, world);
      PolicySetsPushed(ref.pol, world, cfg, IpsetPlan(name, ref.family, c));
      PolicySetsPushed(ref.pol, world, cfg, IpsetPlan(name, ref.family, d));
    }
  }
}
