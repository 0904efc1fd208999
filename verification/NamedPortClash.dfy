// Two named ports in one rule, exposed by different pods: the later port's addresses replace the earlier
// one's in the set they share, and both pods are misjudged.

module NamedPortClash {
  import opened Wrappers
  import opened Net
  import opened PolicyModel
  import opened Translate
  import opened RuleLang
  import opened Synth
  import opened SynthWellFormed
  import opened PolicyMeaning
  import opened LiveSets
  import opened ChainMeaning
  import opened TopMeaning
  import opened Isolation

  const HTTP := PortSpec("tcp", Name("http"))
  const METRICS := PortSpec("tcp", Name("metrics"))
  /** Exposes http only. */
  const WEB := Pod("default", "web", map[], [Ip(V4, 1)], "near", false, [ContainerPort(Some("http"), "tcp", 80)])
  /** Exposes metrics only. */
  const GAUGE := Pod("default", "gauge", map[], [Ip(V4, 2)], "near", false, [ContainerPort(Some("metrics"), "tcp", 9090)])
  const TWO_PORTS := Rule([], [HTTP, METRICS])
  /** Every pod of the namespace accepts its http and metrics ports from anywhere. */
  const NAMED := NetworkPolicy("default", "p", EVERYTHING, true, false, [TWO_PORTS], [])
  const NAMED_WORLD := World([NAMED], [WEB, GAUGE], [])
  const REF := RuleRef(NAMED, Ingress, 0, V4)
  const SHARED := PolicySet("default", "p", NamedPort(Ingress, 0, 0), V4)

  function ToPort80(dst: nat): Packet {
    Packet(Ip(V4, 9), Ip(V4, dst), "tcp", 80, "", New, false, false, false)
  }

  lemma {:induction false} NamedWorldFacts()
    ensures NAMED_WORLD.pods[0] == WEB && NAMED_WORLD.pods[1] == GAUGE && |NAMED_WORLD.pods| == 2
    ensures forall pod: Pod :: pod in NAMED_WORLD.pods <==> pod == WEB || pod == GAUGE
    ensures forall pol: NetworkPolicy :: pol in NAMED_WORLD.policies <==> pol == NAMED
    ensures Selects(NAMED, WEB) && Selects(NAMED, GAUGE)
    ensures NamesUnique(NAMED_WORLD)
  {
    assert WEB.name[0] != GAUGE.name[0];
  }

  lemma {:induction false} PortNames()
    ensures "http" != "metrics"
  {
    assert "http"[0] != "metrics"[0];
  }

  // ---- what the compiler emits ------------------------------------------------------------------

  /** A name that one receiver exposes, at one number: one group. */
  lemma {:induction false} OneGroup(name: string, n: nat, a: IpAddr)
    requires (name == "http" && n == 80 && a == Ip(V4, 1)) || (name == "metrics" && n == 9090 && a == Ip(V4, 2))
    ensures NamedGroups([WEB, GAUGE], name, "tcp", V4) == map[n := {a}]
  {
    PortNames();
    var groups := NamedGroups([WEB, GAUGE], name, "tcp", V4);
    var pod := if n == 80 then WEB else GAUGE;
    assert pod in [WEB, GAUGE] && pod.ports[0] in pod.ports && PortNamed(pod.ports[0], name, "tcp");
    assert forall p, cp :: p in [WEB, GAUGE] && cp in p.ports && PortNamed(cp, name, "tcp") ==> p == pod && cp.port == n;
    assert groups.Keys == {n};
    assert ExposesAt(pod.ports, name, "tcp", n);
    assert pod.ips[0] in pod.ips && forall b :: b in pod.ips ==> b == a;
    assert groups[n] == {a};
  }

  lemma {:induction false} OneKey(n: nat)
    ensures Ascending({n}) == [n]
  {
    var r := Ascending({n});
    assert n in r;
    assert forall i :: 0 <= i < |r| ==> r[i] in r;
  }

  /** The emission of a port with one group. */
  lemma {:induction false} OnePort(port: PortSpec, name: string, n: nat, a: IpAddr)
    requires port == PortSpec("tcp", Name(name))
    requires NamedGroups([WEB, GAUGE], name, "tcp", V4) == map[n := {a}]
    ensures PortEmission(REF, [], [WEB, GAUGE], port) ==
            Emission([IpsetPlan(SHARED, V4, HashIp({a}))], [[InSet(SHARED, Dst), Proto("tcp"), DPort(n)]])
  {
    hide NamedGroups, Ascending;
    var groups := NamedGroups([WEB, GAUGE], name, "tcp", V4);
    assert groups.Keys == {n};
    OneKey(n);
    var es := NamedEmissions(REF, [], "tcp", groups, [n]);
    ConcatOne(es[0]);
    assert es == [es[0]];
    var permit := [] + [InSet(SHARED, Dst)] + [Proto("tcp"), DPort(n)];
    assert permit == [InSet(SHARED, Dst), Proto("tcp"), DPort(n)];
  }

  lemma {:induction false} ConcatOne(e: Emission)
    ensures Concat([e]) == e
  {
    assert [e][..0] == [];
    assert Concat([e]) == Concat([]).Then(e);
    assert [] + e.sets == e.sets && [] + e.permits == e.permits;
  }

  lemma {:induction false} ConcatTwo(d: Emission, e: Emission)
    ensures Concat([d, e]) == d.Then(e)
  {
    assert [d, e][..1] == [d];
    ConcatOne(d);
    assert Concat([d, e]) == Concat([d]).Then(e);
  }

  const LOST := IpsetPlan(SHARED, V4, HashIp({Ip(V4, 1)}))
  const KEPT := IpsetPlan(SHARED, V4, HashIp({Ip(V4, 2)}))
  const PERMIT_HTTP: seq<Match> := [InSet(SHARED, Dst), Proto("tcp"), DPort(80)]
  const PERMIT_METRICS: seq<Match> := [InSet(SHARED, Dst), Proto("tcp"), DPort(9090)]

  lemma {:induction false} TwoPortsEmission()
    ensures PeerEmission(REF, [], [WEB, GAUGE], [HTTP, METRICS]) == Emission([LOST, KEPT], [PERMIT_HTTP, PERMIT_METRICS])
  {
    hide PortEmission, NamedGroups;
    OneGroup("http", 80, Ip(V4, 1));
    OneGroup("metrics", 9090, Ip(V4, 2));
    OnePort(HTTP, "http", 80, Ip(V4, 1));
    OnePort(METRICS, "metrics", 9090, Ip(V4, 2));
    var es := PortEmissions(REF, [], [WEB, GAUGE], [HTTP, METRICS]);
    assert es == [es[0], es[1]];
    ConcatTwo(es[0], es[1]);
  }

  lemma {:induction false} TwoPortsRule()
    ensures RuleEmission(REF, TWO_PORTS, NAMED_WORLD) == Emission([LOST, KEPT], [PERMIT_HTTP, PERMIT_METRICS])
  {
    hide PeerEmission;
    NamedWorldFacts();
    var r := ResolveRule(REF, TWO_PORTS, NAMED_WORLD);
    assert r == ResolvedPeers({}, [], true);
    var receivers := Receivers(REF, r, NAMED_WORLD.pods);
    assert receivers == [WEB, GAUGE] by {
      BothReceive(r);
    }
    assert PeerMatches(REF, r) == [[]];
    var es := PeerEmissions(REF, [[]], receivers, [HTTP, METRICS]);
    assert es == [es[0]];
    TwoPortsEmission();
    ConcatOne(es[0]);
    assert [] + [LOST, KEPT] == [LOST, KEPT] && [] + [PERMIT_HTTP, PERMIT_METRICS] == [PERMIT_HTTP, PERMIT_METRICS];
  }

  lemma {:induction false} BothReceive(r: ResolvedPeers)
    ensures Receivers(REF, r, NAMED_WORLD.pods) == [WEB, GAUGE]
  {
    NamedWorldFacts();
    var pods := NAMED_WORLD.pods;
    assert pods == [WEB, GAUGE] && pods[1..] == [GAUGE] && [GAUGE][1..] == [];
    assert Receivers(REF, r, []) == [];
    assert Receivers(REF, r, [GAUGE]) == [GAUGE] + Receivers(REF, r, []);
    assert Receivers(REF, r, pods) == [WEB] + Receivers(REF, r, [GAUGE]);
  }

  lemma {:induction false} NamedEmission()
    ensures PolicyEmission(NAMED, NAMED_WORLD, V4).permits == [PERMIT_HTTP, PERMIT_METRICS]
    ensures |PolicyEmission(NAMED, NAMED_WORLD, V4).sets| == 3 && PolicyEmission(NAMED, NAMED_WORLD, V4).sets[2] == KEPT
  {
    hide RuleEmission;
    TwoPortsRule();
    var es := RuleEmissions(NAMED, Ingress, [TWO_PORTS], NAMED_WORLD, V4);
    assert es == [es[0]];
    ConcatOne(es[0]);
  }

  /** The shared set is live with the second port's addresses only. */
  lemma {:induction false} SharedSetLive()
    ensures var sets := SetsOf(Compile(NAMED_WORLD, NEAR_NODE).ipsets);
            SHARED in sets && sets[SHARED] == HashIp({Ip(V4, 2)})
  {
    hide PolicyEmission, Compile;
    NamedEmission();
    NamedIpsets();
    var ipsets := Compile(NAMED_WORLD, NEAR_NODE).ipsets;
    assert ipsets[|ipsets|-1] == KEPT;
  }

  lemma {:induction false} NamedIpsets()
    ensures Compile(NAMED_WORLD, NEAR_NODE).ipsets == PolicyEmission(NAMED, NAMED_WORLD, V4).sets
  {
    hide PolicyEmission, Compile;
    CompileParts(NAMED_WORLD, NEAR_NODE);
    var ps := PolicyPlans(NAMED_WORLD.policies, NAMED_WORLD, NEAR_NODE);
    var e := PolicyEmission(NAMED, NAMED_WORLD, V4);
    assert ps == [ps[0]] && ps[0].ipsets == e.sets;
    assert ps[..0] == [];
    assert ConcatPlans(ps).ipsets == [] + e.sets;
  }

  // ---- the verdicts -------------------------------------------------------------------------------

  lemma {:induction false} LivePermitsNamed(dst: nat)
    ensures LivePermits(NAMED, NAMED_WORLD, NEAR_NODE, ToPort80(dst)) <==> dst == 2
  {
    hide PolicyEmission, Compile;
    NamedEmission();
    SharedSetLive();
    var sets, pkt := SetsOf(Compile(NAMED_WORLD, NEAR_NODE).ipsets), ToPort80(dst);
    var permits := PolicyEmission(NAMED, NAMED_WORLD, V4).permits;
    assert permits[0] == PERMIT_HTTP && permits[1] == PERMIT_METRICS;
    assert PERMIT_HTTP[0] in PERMIT_HTTP && PERMIT_METRICS[2] in PERMIT_METRICS;
    assert !MatchOne(PERMIT_METRICS[2], sets, pkt, {});
    assert MatchOne(PERMIT_HTTP[0], sets, pkt, {}) <==> dst == 2;
  }

  /** The pod at the destination, if any, is the only one a packet concerns. */
  lemma {:induction false} OnlyStop(pod: Pod, dst: nat)
    requires (dst == 1 && pod == WEB) || (dst == 2 && pod == GAUGE)
    ensures (exists q :: Stops(q, NAMED_WORLD, NEAR_NODE, ToPort80(dst))) <==> dst == 1
  {
    hide LivePermits;
    NamedWorldFacts();
    LivePermitsNamed(dst);
    var pkt, sel := ToPort80(dst), Selecting([NAMED], pod);
    assert NAMED in sel && forall p :: p in sel ==> p == NAMED;
    assert HasIngress(sel) by {
      assert NAMED.hasIngress;
    }
    assert FamilyIps(pod.ips, V4) == [Ip(V4, dst)];
    assert PodMarks(pod, NAMED_WORLD, NEAR_NODE, pkt) <==> AddressMarks(Ip(V4, dst), sel, NAMED_WORLD, NEAR_NODE, pkt);
    assert Programmed(pod, NAMED_WORLD, NEAR_NODE) && Touches(pod, NEAR_NODE, pkt);
    assert Stops(pod, NAMED_WORLD, NEAR_NODE, pkt) <==> dst == 1;
    forall q | Stops(q, NAMED_WORLD, NEAR_NODE, pkt)
      ensures q == pod
    {
      assert q == WEB || q == GAUGE;
      assert FamilyIps(WEB.ips, V4) == [Ip(V4, 1)] && FamilyIps(GAUGE.ips, V4) == [Ip(V4, 2)];
    }
  }

  lemma {:induction false} NamedVerdict(dst: nat)
    requires dst == 1 || dst == 2
    ensures Verdict(Compile(NAMED_WORLD, NEAR_NODE), RouterForward, ToPort80(dst), {}).Rejected? <==> dst == 1
  {
    hide Compile, Stops, Judges, NamesUnique;
    NamedWorldFacts();
    var pkt := ToPort80(dst);
    NewFlowsAreScreened(NAMED_WORLD, NEAR_NODE, pkt);
    TopExact(NAMED_WORLD, NEAR_NODE, RouterForward, pkt, {});
    OnlyStop(if dst == 1 then WEB else GAUGE, dst);
  }

  lemma {:induction false} WebAllowsHttp()
    ensures !Denies(WEB, Ingress, ToPort80(1), NAMED_WORLD)
  {
    NamedWorldFacts();
    assert WEB.ports[0] in WEB.ports && ExposesAt(WEB.ports, "http", "tcp", 80);
    assert TWO_PORTS.ports[0] == HTTP && HTTP in TWO_PORTS.ports;
    assert PortAdmits(NAMED, Ingress, TWO_PORTS, WEB, HTTP, ToPort80(1), NAMED_WORLD);
    assert RuleAdmits(NAMED, Ingress, TWO_PORTS, WEB, ToPort80(1), NAMED_WORLD);
    assert NAMED.ingress[0] == TWO_PORTS;
    assert PolicyAdmits(NAMED, Ingress, WEB, ToPort80(1), NAMED_WORLD);
  }

  lemma {:induction false} GaugeDeniesHttp()
    ensures Denies(GAUGE, Ingress, ToPort80(2), NAMED_WORLD)
  {
    NamedWorldFacts();
    assert Isolates(NAMED, Ingress, GAUGE);
    forall port | port in TWO_PORTS.ports
      ensures !PortAdmits(NAMED, Ingress, TWO_PORTS, GAUGE, port, ToPort80(2), NAMED_WORLD)
    {
      assert forall cp :: cp in GAUGE.ports ==> cp.port == 9090;
    }
    assert forall rule :: rule in DirRules(NAMED, Ingress) ==> rule == TWO_PORTS;
  }

  /** The web pod's http port is allowed and blocked; the gauge's port 80, which no name resolves to there, is
      denied and let through. */
  lemma {:induction false} NamedPortsMisjudge()
    ensures NamesUnique(NAMED_WORLD) && !NamedPortsAgree(NAMED_WORLD, V4)
    ensures LocalEnd(WEB, Ingress, NAMED_WORLD, NEAR_NODE, ToPort80(1)) && !Denies(WEB, Ingress, ToPort80(1), NAMED_WORLD)
    ensures Verdict(Compile(NAMED_WORLD, NEAR_NODE), RouterForward, ToPort80(1), {}).Rejected?
    ensures LocalEnd(GAUGE, Ingress, NAMED_WORLD, NEAR_NODE, ToPort80(2)) && Denies(GAUGE, Ingress, ToPort80(2), NAMED_WORLD)
    ensures !Verdict(Compile(NAMED_WORLD, NEAR_NODE), RouterForward, ToPort80(2), {}).Rejected?
  {
    hide Compile, Denies, NamesUnique, NamedPortsAgree, PolicyEmission, Verdict;
    NamedWorldFacts();
    WebAllowsHttp();
    GaugeDeniesHttp();
    NamedVerdict(1);
    NamedVerdict(2);
    ClashIsUnfaithful();
    LiveSetsFaithfulIff(NAMED_WORLD, NEAR_NODE);
    assert Ip(V4, 1) in FamilyIps(WEB.ips, V4) && Ip(V4, 2) in FamilyIps(GAUGE.ips, V4);
  }

  lemma {:induction false} ClashIsUnfaithful()
    ensures var ipsets := Compile(NAMED_WORLD, NEAR_NODE).ipsets; !Agrees(SetsOf(ipsets), ipsets)
  {
    hide Compile, PolicyEmission;
    SharedSetLive();
    LostIsPushed();
    var ipsets := Compile(NAMED_WORLD, NEAR_NODE).ipsets;
    assert Ip(V4, 1) in LOST.contents.ips && Ip(V4, 1) !in SetsOf(ipsets)[SHARED].ips;
  }

  lemma {:induction false} LostIsPushed()
    ensures LOST in Compile(NAMED_WORLD, NEAR_NODE).ipsets
  {
    hide RuleEmission, PolicyEmission, Compile;
    NamedWorldFacts();
    TwoPortsRule();
    assert [LOST, KEPT][0] == LOST;
    assert NAMED.ingress[0] == TWO_PORTS;
    RulePushed(REF, NAMED_WORLD, LOST);
    PolicySetsPushed(NAMED, NAMED_WORLD, NEAR_NODE, LOST);
  }
}
