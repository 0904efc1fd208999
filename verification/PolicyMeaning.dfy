// What a compiled policy chain marks: the permits of a policy, evaluated on the live sets, say
// exactly which packets the policy's rules let through.

module PolicyMeaning {
  import opened Net
  import opened PolicyModel
  import opened Translate
  import opened RuleLang
  import opened Synth

  // ---- running a policy chain ------------------------------------------------------

  ghost predicate AnyPermit(permits: seq<seq<Match>>, sets: Sets, pkt: Packet) {
    exists i :: 0 <= i < |permits| && MatchAll(permits[i], sets, pkt, {})
  }

  ghost predicate MarkFree(ms: seq<Match>) {
    forall m :: m in ms ==> !m.MarkIs? && !m.MarkIsNot?
  }

  lemma {:induction false} MarkFreeMatch(ms: seq<Match>, sets: Sets, pkt: Packet, mark: Mark)
    requires MarkFree(ms)
    ensures MatchAll(ms, sets, pkt, mark) == MatchAll(ms, sets, pkt, {})
  {
    forall m | m in ms
      ensures MatchOne(m, sets, pkt, mark) == MatchOne(m, sets, pkt, {})
    {
    }
  }

  lemma {:induction false} SetMatched(mark: Mark)
    ensures NewMark(SetXmark(MATCHED, MATCHED), mark) == mark + MATCHED
    ensures (mark + MATCHED) * MATCHED == MATCHED
    ensures mark * MATCHED == MATCHED <==> 16 in mark
  {
    assert mark * MATCHED == (if 16 in mark then MATCHED else {});
  }

  /** One permit pair: a match marks the packet and leaves the chain. */
  lemma {:induction false} RunPermit(plan: Plan, sets: Sets, c: Chain, ms: seq<Match>, pkt: Packet, mark: Mark)
    requires MarkFree(ms)
    requires forall l :: l in Permit(c, ms) ==> LineKnown(l, plan.decls, sets)
    ensures RunRules(plan, sets, c, Permit(c, ms), pkt, mark) ==
            if MatchAll(ms, sets, pkt, {}) then Returned(mark + MATCHED) else Fell(mark)
  {
    var ls := Permit(c, ms);
    assert ls[0] in ls && ls[1] in ls;
    MarkFreeMatch(ms, sets, pkt, mark);
    MarkFreeMatch(ms, sets, pkt, mark + MATCHED);
    SetMatched(mark);
    var ret := [MarkIs(MATCHED, MATCHED)];
    assert ls == [ls[0]] + [ls[1]];
    RunAppend(plan, sets, c, [ls[0]], [ls[1]], pkt, mark);
    RunOne(plan, sets, c, ls[0], pkt, mark);
    if MatchAll(ms, sets, pkt, {}) {
      RunOne(plan, sets, c, ls[1], pkt, mark + MATCHED);
      MatchAllAppend(ms, ret, sets, pkt, mark + MATCHED);
      assert MatchOne(ret[0], sets, pkt, mark + MATCHED);
    } else {
      RunOne(plan, sets, c, ls[1], pkt, mark);
      MatchAllAppend(ms, ret, sets, pkt, mark);
    }
  }

  lemma {:induction false} RunPermits(plan: Plan, sets: Sets, c: Chain, permits: seq<seq<Match>>, pkt: Packet, mark: Mark)
    requires forall p :: p in permits ==> MarkFree(p)
    requires forall l :: l in PermitLines(c, permits) ==> LineKnown(l, plan.decls, sets)
    ensures RunRules(plan, sets, c, PermitLines(c, permits), pkt, mark) ==
            if AnyPermit(permits, sets, pkt) then Returned(mark + MATCHED) else Fell(mark)
  {
    if permits != [] {
      var first, rest := Permit(c, permits[0]), PermitLines(c, permits[1..]);
      assert permits[0] in permits;
      forall l | l in first || l in rest
        ensures LineKnown(l, plan.decls, sets)
      {
        assert l in first + rest;
      }
      RunPermit(plan, sets, c, permits[0], pkt, mark);
      RunAppend(plan, sets, c, first, rest, pkt, mark);
      forall p | p in permits[1..]
        ensures MarkFree(p)
      {
        assert p in permits;
      }
      RunPermits(plan, sets, c, permits[1..], pkt, mark);
      if AnyPermit(permits[1..], sets, pkt) {
        var i :| 0 <= i < |permits[1..]| && MatchAll(permits[1..][i], sets, pkt, {});
        assert MatchAll(permits[i+1], sets, pkt, {});
      }
    }
  }

  // ---- what the permits of one rule say --------------------------------------------

  lemma {:induction false} AnyPermitConcat(es: seq<Emission>, sets: Sets, pkt: Packet)
    ensures AnyPermit(Concat(es).permits, sets, pkt) <==> exists i :: 0 <= i < |es| && AnyPermit(es[i].permits, sets, pkt)
  {
    if es != [] {
      var front, last := es[..|es|-1], es[|es|-1];
      AnyPermitConcat(front, sets, pkt);
      AnyPermitAppend(Concat(front).permits, last.permits, sets, pkt);
      if exists i :: 0 <= i < |es| && AnyPermit(es[i].permits, sets, pkt) {
        var i :| 0 <= i < |es| && AnyPermit(es[i].permits, sets, pkt);
        if i < |es| - 1 {
          assert AnyPermit(front[i].permits, sets, pkt);
        }
      }
    }
  }

  lemma {:induction false} AnyPermitAppend(a: seq<seq<Match>>, b: seq<seq<Match>>, sets: Sets, pkt: Packet)
    ensures AnyPermit(a + b, sets, pkt) <==> AnyPermit(a, sets, pkt) || AnyPermit(b, sets, pkt)
  {
    if AnyPermit(a, sets, pkt) {
      var i :| 0 <= i < |a| && MatchAll(a[i], sets, pkt, {});
      assert (a + b)[i] == a[i];
    }
    if AnyPermit(b, sets, pkt) {
      var i :| 0 <= i < |b| && MatchAll(b[i], sets, pkt, {});
      assert (a + b)[|a| + i] == b[i];
    }
  }

  lemma {:induction false} AnyPermitOne(ms: seq<Match>, sets: Sets, pkt: Packet)
    ensures AnyPermit([ms], sets, pkt) <==> MatchAll(ms, sets, pkt, {})
  {
    assert [ms][0] == ms;
  }

  /** The live sets hold what an emission put in them. */
  ghost predicate Agrees(sets: Sets, emitted: seq<IpsetPlan>) {
    forall s :: s in emitted ==> s.name in sets && sets[s.name] == s.contents
  }

  /** Some receiver holds the destination and exposes the named port at the packet's port. */
  ghost predicate NamedHit(receivers: seq<Pod>, name: string, proto: string, family: Family, pkt: Packet) {
    pkt.dst.family == family && exists q :: q in receivers && pkt.dst in q.ips && ExposesAt(q.ports, name, proto, pkt.dport)
  }

  ghost predicate PortPermits(
    dir: Direction, peerOk: bool, targetOk: bool, receivers: seq<Pod>, port: PortSpec, family: Family, pkt: Packet)
  {
    && pkt.proto == port.protocol
    && match port.port
       case All => peerOk && targetOk
       case Number(n) => peerOk && targetOk && pkt.dport == n
       case Name(name) => (if dir.Ingress? then peerOk else targetOk) && NamedHit(receivers, name, port.protocol, family, pkt)
  }

  ghost predicate TargetOk(ref: RuleRef, sets: Sets, pkt: Packet) {
    MatchAll(ref.TargetMatch(), sets, pkt, {})
  }

  lemma {:induction false} NamedGroupEval(
    ref: RuleRef, peer: seq<Match>, proto: string, ep: nat, n: nat, ips: set<IpAddr>, sets: Sets, pkt: Packet)
    requires Agrees(sets, NamedGroup(ref, peer, proto, ep, n, ips).sets)
    ensures AnyPermit(NamedGroup(ref, peer, proto, ep, n, ips).permits, sets, pkt) <==>
            && MatchAll(if ref.dir.Ingress? then peer else ref.TargetMatch(), sets, pkt, {})
            && pkt.proto == proto && pkt.dport == n && pkt.dst in ips
  {
    var e, name := NamedGroup(ref, peer, proto, ep, n, ips), ref.SetName(NamedPort(ref.dir, ref.rule, ep));
    assert e.sets[0] in e.sets;
    var other := if ref.dir.Ingress? then peer else ref.TargetMatch();
    var named, port := [InSet(name, Dst)], [Proto(proto), DPort(n)];
    AnyPermitOne(other + named + port, sets, pkt);
    MatchAllAppend(other + named, port, sets, pkt, {});
    MatchAllAppend(other, named, sets, pkt, {});
    assert MatchAll(named, sets, pkt, {}) <==> MatchOne(named[0], sets, pkt, {});
    assert MatchAll(port, sets, pkt, {}) <==> MatchOne(port[0], sets, pkt, {}) && MatchOne(port[1], sets, pkt, {});
  }

  lemma {:induction false} GroupsHit(receivers: seq<Pod>, name: string, proto: string, family: Family, pkt: Packet)
    ensures var groups := NamedGroups(receivers, name, proto, family);
            (pkt.dport in groups && pkt.dst in groups[pkt.dport]) <==> NamedHit(receivers, name, proto, family, pkt)
  {
    var groups := NamedGroups(receivers, name, proto, family);
    if NamedHit(receivers, name, proto, family, pkt) {
      var q :| q in receivers && pkt.dst in q.ips && ExposesAt(q.ports, name, proto, pkt.dport);
      var cp :| cp in q.ports && PortNamed(cp, name, proto) && cp.port == pkt.dport;
      assert pkt.dport in groups;
    }
  }

  lemma {:induction false} PortEval(
    ref: RuleRef, peer: seq<Match>, receivers: seq<Pod>, port: PortSpec, sets: Sets, pkt: Packet)
    requires Agrees(sets, PortEmission(ref, peer, receivers, port).sets)
    ensures AnyPermit(PortEmission(ref, peer, receivers, port).permits, sets, pkt) <==>
            PortPermits(ref.dir, MatchAll(peer, sets, pkt, {}), TargetOk(ref, sets, pkt), receivers, port, ref.family, pkt)
  {
    var target, proto := ref.TargetMatch(), [Proto(port.protocol)];
    match port.port
    case All =>
      AnyPermitOne(peer + target + proto, sets, pkt);
      MatchAllAppend(peer + target, proto, sets, pkt, {});
      MatchAllAppend(peer, target, sets, pkt, {});
      assert MatchAll(proto, sets, pkt, {}) <==> MatchOne(proto[0], sets, pkt, {});
    case Number(n) =>
      var ports := [Proto(port.protocol), DPort(n)];
      AnyPermitOne(peer + target + ports, sets, pkt);
      MatchAllAppend(peer + target, ports, sets, pkt, {});
      MatchAllAppend(peer, target, sets, pkt, {});
      assert MatchAll(ports, sets, pkt, {}) <==> MatchOne(ports[0], sets, pkt, {}) && MatchOne(ports[1], sets, pkt, {});
    case Name(name) =>
      NamedPortEval(ref, peer, receivers, name, port.protocol, sets, pkt);
  }

  lemma {:induction false} NamedPortEval(
    ref: RuleRef, peer: seq<Match>, receivers: seq<Pod>, name: string, proto: string, sets: Sets, pkt: Packet)
    requires Agrees(sets, PortEmission(ref, peer, receivers, PortSpec(proto, Name(name))).sets)
    ensures AnyPermit(PortEmission(ref, peer, receivers, PortSpec(proto, Name(name))).permits, sets, pkt) <==>
            PortPermits(ref.dir, MatchAll(peer, sets, pkt, {}), TargetOk(ref, sets, pkt), receivers, PortSpec(proto, Name(name)),
                        ref.family, pkt)
  {
    hide NamedGroups, Ascending, MatchAll, AnyPermit;
    var groups := NamedGroups(receivers, name, proto, ref.family);
    var keys := Ascending(groups.Keys);
    var es := NamedEmissions(ref, peer, proto, groups, keys);
    GroupsHit(receivers, name, proto, ref.family, pkt);
    AnyPermitConcat(es, sets, pkt);
    forall i | 0 <= i < |es|
      ensures AnyPermit(es[i].permits, sets, pkt) <==>
              MatchAll(if ref.dir.Ingress? then peer else ref.TargetMatch(), sets, pkt, {})
              && pkt.proto == proto && pkt.dport == keys[i] && pkt.dst in groups[keys[i]]
    {
      forall s | s in es[i].sets
        ensures s.name in sets && sets[s.name] == s.contents
      {
        ConcatMembers(es, [], s);
      }
      NamedGroupEval(ref, peer, proto, i, keys[i], groups[keys[i]], sets, pkt);
    }
    if pkt.dport in groups {
      assert pkt.dport in keys;
      var i :| 0 <= i < |keys| && keys[i] == pkt.dport;
      assert AnyPermit(es[i].permits, sets, pkt) <==>
             MatchAll(if ref.dir.Ingress? then peer else ref.TargetMatch(), sets, pkt, {})
             && pkt.proto == proto && pkt.dst in groups[pkt.dport];
    }
  }

  ghost predicate PortsPermit(
    dir: Direction, peerOk: bool, targetOk: bool, receivers: seq<Pod>, ports: seq<PortSpec>, family: Family, pkt: Packet)
  {
    if ports == [] then peerOk && targetOk
    else exists port :: port in ports && PortPermits(dir, peerOk, targetOk, receivers, port, family, pkt)
  }

  lemma {:induction false} PeerEval(ref: RuleRef, peer: seq<Match>, receivers: seq<Pod>, ports: seq<PortSpec>, sets: Sets, pkt: Packet)
    requires Agrees(sets, PeerEmission(ref, peer, receivers, ports).sets)
    ensures AnyPermit(PeerEmission(ref, peer, receivers, ports).permits, sets, pkt) <==>
            PortsPermit(ref.dir, MatchAll(peer, sets, pkt, {}), TargetOk(ref, sets, pkt), receivers, ports, ref.family, pkt)
  {
    if ports == [] {
      AnyPermitOne(peer + ref.TargetMatch(), sets, pkt);
      MatchAllAppend(peer, ref.TargetMatch(), sets, pkt, {});
    } else {
      var es := PortEmissions(ref, peer, receivers, ports);
      AnyPermitConcat(es, sets, pkt);
      forall i | 0 <= i < |es|
        ensures AnyPermit(es[i].permits, sets, pkt) <==>
                PortPermits(ref.dir, MatchAll(peer, sets, pkt, {}), TargetOk(ref, sets, pkt), receivers, ports[i], ref.family, pkt)
      {
        forall s | s in es[i].sets
          ensures s.name in sets && sets[s.name] == s.contents
        {
          ConcatMembers(es, [], s);
        }
        PortEval(ref, peer, receivers, ports[i], sets, pkt);
      }
    }
  }

  /** The policy's own side of the packet is one of its pods. */
  predicate OnTarget(ref: RuleRef, world: World, pkt: Packet) {
    SideOf(pkt, if ref.dir.Ingress? then Dst else Src) in SelectedIps(ref.pol, world.pods, ref.family)
  }

  /** What one compiled rule permits, in terms of its resolved peers. */
  ghost predicate RulePermits(ref: RuleRef, rule: Rule, world: World, pkt: Packet) {
    var r := ResolveRule(ref, rule, world);
    var receivers := Receivers(ref, r, world.pods);
    PortsPermit(ref.dir, EntriesAdmit(r, SideOf(pkt, ref.PeerSide())), OnTarget(ref, world, pkt), receivers, rule.ports, ref.family, pkt)
  }

  lemma {:induction false} PeerMatchesAdmit(ref: RuleRef, r: ResolvedPeers, sets: Sets, pkt: Packet)
    requires Agrees(sets, PeerSets(ref, r))
    requires r.matchAll ==> r.ips == {} && r.nets == []
    ensures var peers := PeerMatches(ref, r);
            EntriesAdmit(r, SideOf(pkt, ref.PeerSide())) <==> exists i :: 0 <= i < |peers| && MatchAll(peers[i], sets, pkt, {})
  {
    var peers, own, a := PeerMatches(ref, r), PeerSets(ref, r), SideOf(pkt, ref.PeerSide());
    if r.matchAll {
      assert MatchAll(peers[0], sets, pkt, {});
    } else {
      if r.ips != {} {
        assert own[0] in own;
        assert peers[0] == [InSet(own[0].name, ref.PeerSide())];
        assert MatchAll(peers[0], sets, pkt, {}) <==> MatchOne(peers[0][0], sets, pkt, {});
        assert MatchAll(peers[0], sets, pkt, {}) <==> a in r.ips;
      }
      if r.nets != [] {
        var k := |own| - 1;
        assert own[k] in own && |peers| == |own|;
        assert peers[k] == [InSet(own[k].name, ref.PeerSide())];
        assert MatchAll(peers[k], sets, pkt, {}) <==> MatchOne(peers[k][0], sets, pkt, {});
        assert MatchAll(peers[k], sets, pkt, {}) <==> NetLookup(r.nets, a);
      }
      assert |peers| <= 2;
    }
  }

  /** A named egress port is only asked about when there are peers to receive. */
  lemma {:induction false} EgressNamedNeedsPeers(ref: RuleRef, r: ResolvedPeers, pods: seq<Pod>, name: string, proto: string, pkt: Packet)
    requires ref.dir.Egress? && NamedHit(Receivers(ref, r, pods), name, proto, ref.family, pkt)
    ensures PeerMatches(ref, r) != []
  {
  }

  lemma {:induction false} TargetEval(ref: RuleRef, world: World, sets: Sets, pkt: Packet)
    requires Agrees(sets, [IpsetPlan(ref.SetName(Targets(ref.dir)), ref.family, HashIp(SelectedIps(ref.pol, world.pods, ref.family)))])
    ensures TargetOk(ref, sets, pkt) <==> OnTarget(ref, world, pkt)
  {
    var target := IpsetPlan(ref.SetName(Targets(ref.dir)), ref.family, HashIp(SelectedIps(ref.pol, world.pods, ref.family)));
    assert target in [target];
    assert TargetOk(ref, sets, pkt) <==> MatchOne(ref.TargetMatch()[0], sets, pkt, {});
  }

  lemma {:induction false} AgreesPart(sets: Sets, all: seq<IpsetPlan>, es: seq<Emission>, i: nat)
    requires Agrees(sets, all) && i < |es|
    requires forall s :: s in Concat(es).sets ==> s in all
    ensures Agrees(sets, es[i].sets)
  {
    forall s | s in es[i].sets
      ensures s.name in sets && sets[s.name] == s.contents
    {
      ConcatMembers(es, [], s);
      assert s in all;
    }
  }

  lemma {:induction false} RuleEval(ref: RuleRef, rule: Rule, world: World, sets: Sets, pkt: Packet)
    requires Agrees(sets, RuleEmission(ref, rule, world).sets)
    requires Agrees(sets, [IpsetPlan(ref.SetName(Targets(ref.dir)), ref.family, HashIp(SelectedIps(ref.pol, world.pods, ref.family)))])
    ensures AnyPermit(RuleEmission(ref, rule, world).permits, sets, pkt) <==> RulePermits(ref, rule, world, pkt)
  {
    var r := ResolveRule(ref, rule, world);
    var peers, receivers, all := PeerMatches(ref, r), Receivers(ref, r, world.pods), RuleEmission(ref, rule, world).sets;
    var es := PeerEmissions(ref, peers, receivers, rule.ports);
    AnyPermitConcat(es, sets, pkt);
    assert RuleEmission(ref, rule, world).permits == Concat(es).permits;
    assert all == PeerSets(ref, r) + Concat(es).sets;
    TargetEval(ref, world, sets, pkt);
    PeerMatchesAdmit(ref, r, sets, pkt);
    forall i | 0 <= i < |es|
      ensures AnyPermit(es[i].permits, sets, pkt) <==>
              PortsPermit(ref.dir, MatchAll(peers[i], sets, pkt, {}), OnTarget(ref, world, pkt), receivers, rule.ports, ref.family, pkt)
    {
      AgreesPart(sets, all, es, i);
      PeerEval(ref, peers[i], receivers, rule.ports, sets, pkt);
    }
    PeersCombine(ref, rule, r, world, peers, sets, pkt, OnTarget(ref, world, pkt));
  }

  /** Any peer match under which the ports permit, is the peers admitting and the ports permitting. */
  lemma {:induction false} PeersCombine(
    ref: RuleRef, rule: Rule, r: ResolvedPeers, world: World, peers: seq<seq<Match>>, sets: Sets, pkt: Packet, targetOk: bool)
    requires peers == PeerMatches(ref, r)
    requires EntriesAdmit(r, SideOf(pkt, ref.PeerSide())) <==> exists i :: 0 <= i < |peers| && MatchAll(peers[i], sets, pkt, {})
    ensures (exists i :: 0 <= i < |peers| &&
               PortsPermit(ref.dir, MatchAll(peers[i], sets, pkt, {}), targetOk, Receivers(ref, r, world.pods), rule.ports, ref.family, pkt))
            <==> PortsPermit(ref.dir, EntriesAdmit(r, SideOf(pkt, ref.PeerSide())), targetOk, Receivers(ref, r, world.pods), rule.ports,
                             ref.family, pkt)
  {
    hide MatchAll, NamedHit;
    var receivers, admitted := Receivers(ref, r, world.pods), EntriesAdmit(r, SideOf(pkt, ref.PeerSide()));
    if i :| 0 <= i < |peers| && PortsPermit(ref.dir, MatchAll(peers[i], sets, pkt, {}), targetOk, receivers, rule.ports, ref.family, pkt) {
      if rule.ports != [] {
        var port :| port in rule.ports && PortPermits(ref.dir, MatchAll(peers[i], sets, pkt, {}), targetOk, receivers, port, ref.family, pkt);
        assert PortPermits(ref.dir, admitted, targetOk, receivers, port, ref.family, pkt);
      }
    }
    if PortsPermit(ref.dir, admitted, targetOk, receivers, rule.ports, ref.family, pkt) {
      if rule.ports == [] {
        var i :| 0 <= i < |peers| && MatchAll(peers[i], sets, pkt, {});
        assert PortsPermit(ref.dir, MatchAll(peers[i], sets, pkt, {}), targetOk, receivers, rule.ports, ref.family, pkt);
      } else {
        var port :| port in rule.ports && PortPermits(ref.dir, admitted, targetOk, receivers, port, ref.family, pkt);
        var i: nat;
        if ref.dir.Egress? && port.port.Name? {
          EgressNamedNeedsPeers(ref, r, world.pods, port.port.name, port.protocol, pkt);
          i := 0;
        } else {
          i :| 0 <= i < |peers| && MatchAll(peers[i], sets, pkt, {});
        }
        assert PortPermits(ref.dir, MatchAll(peers[i], sets, pkt, {}), targetOk, receivers, port, ref.family, pkt);
        assert PortsPermit(ref.dir, MatchAll(peers[i], sets, pkt, {}), targetOk, receivers, rule.ports, ref.family, pkt);
      }
    }
  }

  // ---- what a policy says ---------------------------------------------------------

  ghost predicate DirPermits(pol: NetworkPolicy, dir: Direction, world: World, family: Family, pkt: Packet) {
    exists i :: 0 <= i < |DirRules(pol, dir)| && RulePermits(RuleRef(pol, dir, i, family), DirRules(pol, dir)[i], world, pkt)
  }

  predicate Governs(pol: NetworkPolicy, dir: Direction) {
    if dir.Ingress? then pol.hasIngress else pol.hasEgress
  }

  ghost predicate PolicyPermits(pol: NetworkPolicy, world: World, family: Family, pkt: Packet) {
    || (pol.hasIngress && DirPermits(pol, Ingress, world, family, pkt))
    || (pol.hasEgress && DirPermits(pol, Egress, world, family, pkt))
  }

  lemma {:induction false} DirEval(pol: NetworkPolicy, dir: Direction, world: World, family: Family, sets: Sets, pkt: Packet)
    requires Agrees(sets, DirEmission(pol, dir, world, family).sets)
    ensures AnyPermit(DirEmission(pol, dir, world, family).permits, sets, pkt) <==> DirPermits(pol, dir, world, family, pkt)
  {
    var rules, e := DirRules(pol, dir), DirEmission(pol, dir, world, family);
    var es, target := RuleEmissions(pol, dir, rules, world, family), e.sets[0];
    assert target in e.sets;
    assert e.permits == Concat(es).permits;
    AnyPermitConcat(es, sets, pkt);
    forall i | 0 <= i < |es|
      ensures AnyPermit(es[i].permits, sets, pkt) <==> RulePermits(RuleRef(pol, dir, i, family), rules[i], world, pkt)
    {
      forall s | s in es[i].sets
        ensures s.name in sets && sets[s.name] == s.contents
      {
        ConcatMembers(es, [], s);
        assert s in e.sets;
      }
      RuleEval(RuleRef(pol, dir, i, family), rules[i], world, sets, pkt);
    }
  }

  lemma {:induction false} PolicyEval(pol: NetworkPolicy, world: World, family: Family, sets: Sets, pkt: Packet)
    requires Agrees(sets, PolicyEmission(pol, world, family).sets)
    ensures AnyPermit(PolicyEmission(pol, world, family).permits, sets, pkt) <==> PolicyPermits(pol, world, family, pkt)
  {
    var e := PolicyEmission(pol, world, family);
    var a := if pol.hasIngress then DirEmission(pol, Ingress, world, family) else NOTHING;
    var b := if pol.hasEgress then DirEmission(pol, Egress, world, family) else NOTHING;
    assert Agrees(sets, a.sets) && Agrees(sets, b.sets) by {
      forall s | s in a.sets || s in b.sets
        ensures s.name in sets && sets[s.name] == s.contents
      {
        assert s in e.sets;
      }
    }
    AnyPermitAppend(a.permits, b.permits, sets, pkt);
    if pol.hasIngress {
      DirEval(pol, Ingress, world, family, sets, pkt);
    }
    if pol.hasEgress {
      DirEval(pol, Egress, world, family, sets, pkt);
    }
  }
}
