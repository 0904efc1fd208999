// The firewall sync: per family, the ipsets of the plan, then its chains, then the builtin jumps; and
// what the kernel's packets meet after it.

module FirewallController {
  import opened Net
  import opened PolicyModel
  import opened Translate
  import opened RuleLang
  import opened Synth
  import opened SynthWellFormed
  import opened PolicyMeaning
  import opened LiveSets
  import opened ChainMeaning
  import opened TopMeaning
  import opened StatefulMeaning
  import opened Isolation
  import opened IpsetPayload

  // ---- the filter table -----------------------------------------------------------------------

  datatype Filter = Filter(chains: seq<Chain>, rules: seq<Line>)

  datatype Builtin = Input | Forward | Output

  /** `--noflush`: only declared chains are emptied. */
  function Surviving(rules: seq<Line>, decls: seq<Chain>): seq<Line> {
    if rules == [] then [] else
      (if rules[0].chain in decls then [] else [rules[0]]) + Surviving(rules[1..], decls)
  }

  function LoadInto(f: Filter, plan: Plan): Filter {
    Filter(f.chains + plan.decls, Surviving(f.rules, plan.decls) + plan.rules)
  }

  /** The live sets, by name. */
  function LiveSetsOf(k: SetTable): Sets {
    map n | n in (set m | m in k && m.Live? :: m.set_) :: k[Live(n)].contents
  }

  /** What `iptables-restore` demands of a document: chains, jump targets and matched sets exist, and the
      jumps do not loop. */
  predicate Loadable(f: Filter, plan: Plan, sets: Sets) {
    forall l | l in plan.rules :: LineKnown(l, f.chains + plan.decls, sets)
  }

  /** The traversal of a kernel chain. */
  function Traverse(f: Filter, sets: Sets, c: Chain, pkt: Packet, mark: Mark): Outcome {
    RunChain(Plan([], f.chains, f.rules), sets, c, pkt, mark)
  }

  lemma {:induction false} SurvivingRules(rules: seq<Line>, decls: seq<Chain>, c: Chain)
    ensures RulesOf(Surviving(rules, decls), c) == if c in decls then [] else RulesOf(rules, c)
  {
    if rules != [] {
      SurvivingRules(rules[1..], decls, c);
      var head := if rules[0].chain in decls then [] else [rules[0]];
      RulesOfAppend(head, Surviving(rules[1..], decls), c);
      assert RulesOf([rules[0]], c) == if rules[0].chain == c then [rules[0]] else [] by {
        assert [rules[0]][1..] == [];
      }
    }
  }

  /** The chains of a plan hold its rules once loaded; every other chain is as it was. */
  lemma {:induction false} LoadedRules(f: Filter, plan: Plan, c: Chain)
    requires forall l :: l in plan.rules ==> l.chain in plan.decls
    ensures RulesOf(LoadInto(f, plan).rules, c) == RulesOf(if c in plan.decls then plan.rules else f.rules, c)
  {
    SurvivingRules(f.rules, plan.decls, c);
    RulesOfAppend(Surviving(f.rules, plan.decls), plan.rules, c);
    if c !in plan.decls {
      RulesOfNone(plan.rules, c);
    }
  }

  // ---- the node -------------------------------------------------------------------------------

  type Filters = map<Family, Filter>

  function FilterOf(fs: Filters, f: Family): Filter {
    if f in fs then fs[f] else Filter([], [])
  }

  type Heads = map<(Family, Builtin), seq<Chain>>

  function HeadOf(h: Heads, f: Family, b: Builtin): seq<Chain> {
    if (f, b) in h then h[(f, b)] else []
  }

  class Node {
    var sets: SetTable
    var filters: Filters
    var heads: Heads

    constructor (sets: SetTable, filters: Filters, heads: Heads)
      ensures this.sets == sets && this.filters == filters && this.heads == heads
    {
      this.sets, this.filters, this.heads := sets, filters, heads;
    }

    /** `IpsetOps::restore`. */
    method Restore(payload: seq<Command>) returns (ok: bool)
      modifies this`sets
      ensures Restored(sets, ok) == Run(old(sets), payload)
    {
      ok := true;
      ghost var start := sets;
      for i := 0 to |payload|
        invariant ok && Run(start, payload) == Run(sets, payload[i..])
      {
        if !Permitted(sets, payload[i]) {
          ok := false;
          return;
        }
        sets := Step(sets, payload[i]);
      }
    }

    /** `IptablesOps::restore_filter`: all of the document or none of it. */
    method RestoreFilter(f: Family, plan: Plan) returns (ok: bool)
      modifies this`filters
      ensures ok == Loadable(FilterOf(old(filters), f), plan, LiveSetsOf(sets))
      ensures filters == if ok then old(filters)[f := LoadInto(FilterOf(old(filters), f), plan)] else old(filters)
    {
      ok := Loadable(FilterOf(filters, f), plan, LiveSetsOf(sets));
      if ok {
        filters := filters[f := LoadInto(FilterOf(filters, f), plan)];
      }
    }

    /** `IptablesOps::ensure_jump`: inserted in front unless already there. */
    method EnsureJump(f: Family, b: Builtin, target: Chain)
      modifies this`heads
      ensures heads == if target in HeadOf(old(heads), f, b) then old(heads)
                       else old(heads)[(f, b) := [target] + HeadOf(old(heads), f, b)]
    {
      if target !in HeadOf(heads, f, b) {
        heads := heads[(f, b) := [target] + HeadOf(heads, f, b)];
      }
    }
  }

  // ---- sets -------------------------------------------------------------------------------------

  function NameShape(n: SetName): Shape {
    Shape(n.PolicySet? && n.kind.PeerBlocks?, n.family)
  }

  /** A name always stands for the same type of set. */
  ghost predicate Typed(k: SetTable) {
    forall n :: n in k ==> k[n].ShapeOf() == NameShape(n.set_)
  }

  function ShapeOfSet(s: IpsetPlan): Shape {
    Shape(s.contents.HashNet?, s.family)
  }

  ghost predicate SetStorable(s: IpsetPlan) {
    match s.contents
    case HashIp(ips) => forall a :: a in ips ==> a.family == s.family
    case HashNet(nets) => forall e :: e in nets ==> e.net.addr.family == s.family && e.net.len > 0
  }

  lemma {:induction false} StorableByEntry(s: IpsetPlan, entries: seq<Entry>)
    requires Lists(entries, s.contents)
    ensures AllStorable(ShapeOfSet(s), entries) <==> SetStorable(s)
  {
    match s.contents
    case HashIp(ips) =>
      assert forall a :: a in ips ==> Address(a) in entries;
    case HashNet(nets) =>
      forall e | e in nets
        ensures Prefix(e) in entries
      {
        var i :| 0 <= i < |nets| && nets[i] == e;
        assert entries[i] == Prefix(e);
      }
      forall e | e in entries
        ensures e.Prefix? && e.entry in nets
      {
        var i :| 0 <= i < |entries| && entries[i] == e;
        assert nets[i] == e.entry;
      }
  }

  /** A list of the entries, as the plan hands them over. */
  method Listing(contents: SetContents) returns (entries: seq<Entry>)
    ensures Lists(entries, contents)
  {
    entries := [];
    match contents
    case HashIp(ips) =>
      var rest := ips;
      while rest != {}
        invariant rest <= ips
        invariant forall e :: e in entries ==> e.Address? && e.addr in ips
        invariant forall a :: a in ips - rest ==> Address(a) in entries
        decreases |rest|
      {
        var a :| a in rest;
        entries := entries + [Address(a)];
        rest := rest - {a};
      }
    case HashNet(nets) =>
      for i := 0 to |nets|
        invariant |entries| == i && forall j :: 0 <= j < i ==> entries[j] == Prefix(nets[j])
      {
        entries := entries + [Prefix(nets[i])];
      }
  }

  function Replaced(k: SetTable, s: IpsetPlan): SetTable {
    k[Live(s.name) := KSet(s.family, s.contents)] - {Tmp(s.name)}
  }

  function ReplacedAll(k: SetTable, ipsets: seq<IpsetPlan>): SetTable {
    if ipsets == [] then k else Replaced(ReplacedAll(k, ipsets[..|ipsets|-1]), ipsets[|ipsets|-1])
  }

  lemma {:induction false} ReplacedAllLive(k: SetTable, ipsets: seq<IpsetPlan>, n: SetName)
    ensures n in SetsOf(ipsets) ==> Live(n) in ReplacedAll(k, ipsets) && ReplacedAll(k, ipsets)[Live(n)].contents == SetsOf(ipsets)[n]
    ensures n !in SetsOf(ipsets) ==>
              (Live(n) in ReplacedAll(k, ipsets) <==> Live(n) in k)
              && (Live(n) in k ==> ReplacedAll(k, ipsets)[Live(n)] == k[Live(n)])
  {
    if ipsets != [] {
      ReplacedAllLive(k, ipsets[..|ipsets|-1], n);
    }
  }

  /** Every live set is as it was or holds exactly what some entry of the plan gives it; at most, a set that
      did not exist is still empty. */
  ghost predicate OldOrNew(k: SetTable, after: SetTable, ipsets: seq<IpsetPlan>) {
    && (forall n :: Live(n) in k ==> Live(n) in after)
    && (forall n :: Live(n) in after ==>
          || (Live(n) in k && after[Live(n)] == k[Live(n)])
          || (Live(n) !in k && exists s :: s in ipsets && s.name == n && after[Live(n)] == Empty(ShapeOfSet(s)))
          || exists s :: s in ipsets && s.name == n && after[Live(n)] == KSet(s.family, s.contents))
  }

  lemma {:induction false} OldOrNewStep(k: SetTable, mid: SetTable, after: SetTable, ipsets: seq<IpsetPlan>, s: IpsetPlan)
    requires OldOrNew(k, mid, ipsets) && s in ipsets
    requires OthersKept(mid, after, s.name)
    requires LiveKept(mid, after, s.name, ShapeOfSet(s))
             || (Live(s.name) in after && after[Live(s.name)] == KSet(s.family, s.contents))
    ensures OldOrNew(k, after, ipsets)
  {
    forall n | Live(n) in after
      ensures || (Live(n) in k && after[Live(n)] == k[Live(n)])
              || (Live(n) !in k && exists t :: t in ipsets && t.name == n && after[Live(n)] == Empty(ShapeOfSet(t)))
              || exists t :: t in ipsets && t.name == n && after[Live(n)] == KSet(t.family, t.contents)
    {
      if n != s.name {
        assert Live(n) in mid && after[Live(n)] == mid[Live(n)];
      }
    }
  }

  ghost predicate WellTyped(c: Command) {
    match c
    case Create(n, shape) => shape == NameShape(n.set_)
    case Swap(m, n) => m.set_ == n.set_
    case _ => true
  }

  lemma {:induction false} TypedRun(k: SetTable, cs: seq<Command>)
    requires Typed(k) && forall c :: c in cs ==> WellTyped(c)
    ensures Typed(Run(k, cs).sets)
    decreases |cs|
  {
    if cs != [] && Permitted(k, cs[0]) {
      assert WellTyped(cs[0]);
      assert Typed(Step(k, cs[0]));
      assert forall c :: c in cs[1..] ==> c in cs;
      TypedRun(Step(k, cs[0]), cs[1..]);
    }
  }

  lemma {:induction false} PayloadWellTyped(name: SetName, entries: seq<Entry>)
    ensures forall c :: c in Payload(name, NameShape(name), entries) ==> WellTyped(c)
  {
    forall c | c in Payload(name, NameShape(name), entries)
      ensures WellTyped(c)
    {
      if c in Adds(Tmp(name), entries) {
        var i :| 0 <= i < |entries| && Adds(Tmp(name), entries)[i] == c;
      }
    }
  }

  /** Every set of the plan has the type of its name, and its family. */
  ghost predicate PlanTyped(ipsets: seq<IpsetPlan>, f: Family) {
    forall s :: s in ipsets ==> ShapeOfSet(s) == NameShape(s.name) && s.family == f
  }

  ghost predicate AllSetsStorable(ipsets: seq<IpsetPlan>) {
    forall s :: s in ipsets ==> SetStorable(s)
  }

  /** Sets of the other family are never touched. */
  ghost predicate ForeignKept(k: SetTable, after: SetTable, f: Family) {
    forall n: KernelName :: n.set_.family != f ==> (n in after <==> n in k) && (n in k ==> after[n] == k[n])
  }

  // ---- what a compiled plan asks of the kernel -----------------------------------------------

  lemma {:induction false} PeerAddressesOfFamily(ref: RuleRef, rule: Rule, world: World, a: IpAddr)
    requires a in ResolveRule(ref, rule, world).ips
    ensures a.family == ref.family
  {
    SelectorIpsExact(rule.peers, world.pods, world.namespaces, ref.pol.namespace, ref.family, a);
  }

  lemma {:induction false} GroupAddressesOfFamily(ref: RuleRef, port: PortSpec, ep: nat, c: SetContents, world: World)
    requires ref.rule < |DirRules(ref.pol, ref.dir)| && NamedMeans(ref, port, ep, c, world)
    ensures c.HashIp? && forall a :: a in c.ips ==> a.family == ref.family
  {
    hide Receivers, ResolveRule, ExposesAt, Ascending;
    var receivers := Receivers(ref, ResolveRule(ref, DirRules(ref.pol, ref.dir)[ref.rule], world), world.pods);
    var groups := NamedGroups(receivers, port.port.name, port.protocol, ref.family);
    var n := Ascending(groups.Keys)[ep];
    assert n in Ascending(groups.Keys);
    assert c.ips == GroupIps(receivers, port.port.name, port.protocol, ref.family, n);
  }

  lemma {:induction false} AddressesOfFamily(pol: NetworkPolicy, kind: SetKind, c: SetContents, world: World, family: Family)
    requires Means(pol, kind, c, world, family)
    ensures c.HashNet? <==> kind.PeerBlocks?
    ensures c.HashIp? ==> forall a :: a in c.ips ==> a.family == family
  {
    hide Emits, NamedMeans, ResolveRule, Selects;
    if kind.PeerPods? {
      forall a | a in c.ips
        ensures a.family == family
      {
        PeerAddressesOfFamily(RuleRef(pol, kind.dir, kind.rule, family), DirRules(pol, kind.dir)[kind.rule], world, a);
      }
    } else if kind.NamedPort? {
      var ref := RuleRef(pol, kind.dir, kind.rule, family);
      var port :| port in DirRules(pol, kind.dir)[kind.rule].ports && NamedMeans(ref, port, kind.group, c, world);
      GroupAddressesOfFamily(ref, port, kind.group, c, world);
    }
  }

  /** The ipBlocks of a rule, as prefixes a hash:net set can hold. */
  ghost predicate BlocksStorable(rule: Rule, f: Family) {
    forall b :: b in rule.peers && b.IpBlock? && b.cidr.addr.family == f ==>
                  b.cidr.len > 0 && forall e :: e in b.except ==> e.addr.family == f && e.len > 0
  }

  ghost predicate WorldStorable(world: World, f: Family) {
    forall pol, dir, i :: pol in world.policies && Governs(pol, dir) && 0 <= i < |DirRules(pol, dir)| ==>
                            BlocksStorable(DirRules(pol, dir)[i], f)
  }

  lemma {:induction false} NetsStorableIff(rule: Rule, f: Family)
    ensures (forall e :: e in BlockNets(rule.peers, f) ==> e.net.addr.family == f && e.net.len > 0) <==> BlocksStorable(rule, f)
  {
    var nets := BlockNets(rule.peers, f);
    forall e | e in nets && BlocksStorable(rule, f)
      ensures e.net.addr.family == f && e.net.len > 0
    {
      BlockNetsMembers(rule.peers, f, e);
    }
    if forall e :: e in nets ==> e.net.addr.family == f && e.net.len > 0 {
      forall b | b in rule.peers && b.IpBlock? && b.cidr.addr.family == f
        ensures b.cidr.len > 0 && forall e :: e in b.except ==> e.addr.family == f && e.len > 0
      {
        BlockNetsMembers(rule.peers, f, NetEntry(b.cidr, false));
        assert NetEntry(b.cidr, false) in nets;
        forall e | e in b.except
          ensures e.addr.family == f && e.len > 0
        {
          BlockNetsMembers(rule.peers, f, NetEntry(e, true));
          assert NetEntry(e, true) in nets;
        }
      }
    }
  }

  lemma {:induction false} CompiledSetsTyped(world: World, cfg: Config)
    ensures PlanTyped(Compile(world, cfg).ipsets, cfg.family)
  {
    hide Compile;
    forall s | s in Compile(world, cfg).ipsets
      ensures ShapeOfSet(s) == NameShape(s.name) && s.family == cfg.family
    {
      SetSource(world, cfg, s);
      if pol :| pol in world.policies && Applies(pol) && s in PolicyEmission(pol, world, cfg.family).sets {
        PolicyOwn(pol, world, cfg.family);
        assert OwnSet(s, pol, world, cfg.family);
        AddressesOfFamily(pol, s.name.kind, s.contents, world, cfg.family);
      }
    }
  }

  lemma {:induction false} StorableWorldStores(world: World, cfg: Config)
    requires WorldStorable(world, cfg.family)
    ensures AllSetsStorable(Compile(world, cfg).ipsets)
  {
    hide Compile, PolicyEmission, WorldStorable, OwnSet;
    forall s | s in Compile(world, cfg).ipsets
      ensures SetStorable(s)
    {
      SetSource(world, cfg, s);
      if pol :| pol in world.policies && Applies(pol) && s in PolicyEmission(pol, world, cfg.family).sets {
        PolicyOwn(pol, world, cfg.family);
        OwnSetStorable(pol, world, cfg.family, s);
      }
    }
  }

  lemma {:induction false} OwnSetStorable(pol: NetworkPolicy, world: World, family: Family, s: IpsetPlan)
    requires WorldStorable(world, family) && pol in world.policies && OwnSet(s, pol, world, family)
    ensures SetStorable(s)
  {
    hide BlocksStorable, BlockNets, SelectorIps;
    var kind := s.name.kind;
    AddressesOfFamily(pol, kind, s.contents, world, family);
    if kind.PeerBlocks? {
      NetsStorableIff(DirRules(pol, kind.dir)[kind.rule], family);
    }
  }

  lemma {:induction false} RuleBlocksEmitted(pol: NetworkPolicy, dir: Direction, i: nat, world: World, family: Family)
    requires Governs(pol, dir) && i < |DirRules(pol, dir)| && BlockNets(DirRules(pol, dir)[i].peers, family) != []
    ensures IpsetPlan(PolicySet(pol.namespace, pol.name, PeerBlocks(dir, i), family), family,
                      HashNet(BlockNets(DirRules(pol, dir)[i].peers, family)))
            in PolicyEmission(pol, world, family).sets
  {
    var rules, ref := DirRules(pol, dir), RuleRef(pol, dir, i, family);
    var es, nets := RuleEmissions(pol, dir, rules, world, family), BlockNets(rules[i].peers, family);
    var r := ResolveRule(ref, rules[i], world);
    var s := IpsetPlan(PolicySet(pol.namespace, pol.name, PeerBlocks(dir, i), family), family, HashNet(nets));
    assert !r.matchAll && r.nets == nets;
    assert s in PeerSets(ref, r);
    assert s in es[i].sets;
    ConcatMembers(es, [], s);
    assert s in DirEmission(pol, dir, world, family).sets;
  }

  lemma {:induction false} StoredWorldStorable(world: World, cfg: Config)
    requires AllSetsStorable(Compile(world, cfg).ipsets)
    ensures WorldStorable(world, cfg.family)
  {
    hide Compile;
    forall pol, dir, i | pol in world.policies && Governs(pol, dir) && 0 <= i < |DirRules(pol, dir)|
      ensures BlocksStorable(DirRules(pol, dir)[i], cfg.family)
    {
      var rule := DirRules(pol, dir)[i];
      var nets := BlockNets(rule.peers, cfg.family);
      if nets != [] {
        RuleBlocksEmitted(pol, dir, i, world, cfg.family);
        var s := IpsetPlan(PolicySet(pol.namespace, pol.name, PeerBlocks(dir, i), cfg.family), cfg.family, HashNet(nets));
        PolicySetsPushed(pol, world, cfg, s);
        assert SetStorable(s);
      }
      NetsStorableIff(rule, cfg.family);
    }
  }

  // ---- the sync ---------------------------------------------------------------------------------

  function ForFamily(cfg: Config, f: Family): Config {
    cfg.(family := f)
  }

  /** Everything the pass may put into a set. */
  function PlannedSets(world: World, cfg: Config, families: seq<Family>): seq<IpsetPlan> {
    if families == [] then [] else
      PlannedSets(world, cfg, families[..|families|-1]) + Compile(world, ForFamily(cfg, families[|families|-1])).ipsets
  }

  /** The compiled plan of a family is what the kernel holds: its sets live, its chains loaded. */
  ghost predicate InForce(sets: SetTable, filters: Filters, world: World, cfg: Config) {
    var plan := Compile(world, cfg);
    && SetsInForce(sets, plan)
    && cfg.family in filters
    && ChainsInForce(filters[cfg.family], plan)
  }

  ghost predicate SetsInForce(sets: SetTable, plan: Plan) {
    forall n :: n in SetsOf(plan.ipsets) ==> Live(n) in sets && sets[Live(n)].contents == SetsOf(plan.ipsets)[n]
  }

  ghost predicate ChainsInForce(filter: Filter, plan: Plan) {
    forall c :: c in plan.decls ==> c in filter.chains && RulesOf(filter.rules, c) == RulesOf(plan.rules, c)
  }

  ghost predicate JumpsInForce(heads: Heads, f: Family) {
    RouterInput in HeadOf(heads, f, Input) && RouterForward in HeadOf(heads, f, Forward) && RouterOutput in HeadOf(heads, f, Output)
  }

  lemma {:induction false} JumpHeads(heads: Heads, families: seq<Family>)
    ensures forall f :: f in families && JumpsInForce(heads, f) ==>
              && RouterInput in HeadOf(heads, f, Input) && RouterForward in HeadOf(heads, f, Forward)
              && RouterOutput in HeadOf(heads, f, Output)
  {
  }

  lemma {:induction false} SetsOfFamily(ipsets: seq<IpsetPlan>, f: Family, n: SetName)
    requires PlanTyped(ipsets, f) && n in SetsOf(ipsets)
    ensures n.family == f
  {
    SetsOfKeys(ipsets);
    var s :| s in ipsets && s.name == n;
    assert ShapeOfSet(s).family == NameShape(s.name).family;
  }

  /** Sets first: once they are restored, the rules of a well-formed plan are accepted. */
  lemma {:induction false} RestoredSetsAdmitRules(k: SetTable, f: Filter, plan: Plan)
    requires WellFormed(plan)
    ensures Loadable(f, plan, LiveSetsOf(ReplacedAll(k, plan.ipsets)))
    ensures SetsInForce(ReplacedAll(k, plan.ipsets), plan)
    ensures ChainsInForce(LoadInto(f, plan), plan)
  {
    var after := ReplacedAll(k, plan.ipsets);
    forall n | n in SetsOf(plan.ipsets)
      ensures Live(n) in after && after[Live(n)].contents == SetsOf(plan.ipsets)[n] && n in LiveSetsOf(after)
    {
      ReplacedAllLive(k, plan.ipsets, n);
      assert Live(n).set_ == n;
    }
    forall l | l in plan.rules
      ensures LineKnown(l, f.chains + plan.decls, LiveSetsOf(after)) && l.chain in plan.decls
    {
      assert LineKnown(l, plan.decls, SetsOf(plan.ipsets));
    }
    forall c | c in plan.decls
      ensures RulesOf(LoadInto(f, plan).rules, c) == RulesOf(plan.rules, c)
    {
      LoadedRules(f, plan, c);
    }
  }

  /** The first `i` sets of a plan are restored. */
  ghost predicate RestoredUpTo(start: SetTable, k: SetTable, ipsets: seq<IpsetPlan>, i: nat, f: Family) {
    && i <= |ipsets|
    && k == ReplacedAll(start, ipsets[..i])
    && OldOrNew(start, k, ipsets) && ForeignKept(start, k, f)
    && (Typed(start) ==> Typed(k) && forall j :: 0 <= j < i ==> SetStorable(ipsets[j]))
  }

  lemma {:induction false} RestoredNone(start: SetTable, ipsets: seq<IpsetPlan>, f: Family)
    ensures RestoredUpTo(start, start, ipsets, 0, f)
  {
  }

  lemma {:induction false} RestoreOne(k: SetTable, s: IpsetPlan, entries: seq<Entry>, f: Family)
    requires Lists(entries, s.contents) && ShapeOfSet(s) == NameShape(s.name) && s.family == f
    ensures var r := Run(k, Payload(s.name, ShapeOfSet(s), entries));
            && (r.ok ==> r.sets == Replaced(k, s))
            && (Typed(k) ==> Typed(r.sets) && (r.ok <==> SetStorable(s)))
            && OthersKept(k, r.sets, s.name)
            && (LiveKept(k, r.sets, s.name, ShapeOfSet(s))
                || (Live(s.name) in r.sets && r.sets[Live(s.name)] == KSet(s.family, s.contents)))
  {
    hide Run, Lists;
    var shape := ShapeOfSet(s);
    var payload := Payload(s.name, shape, entries);
    ReplacementIsExact(k, s.name, shape, entries, s.contents);
    ReplacementIsAtomic(k, s.name, shape, entries, s.contents, |payload|);
    assert payload[..|payload|] == payload;
    StorableByEntry(s, entries);
    if Typed(k) {
      PayloadWellTyped(s.name, entries);
      TypedRun(k, payload);
      assert Fits(k, s.name, shape);
    }
  }

  lemma {:induction false} RestoreStep(start: SetTable, k: SetTable, ipsets: seq<IpsetPlan>, i: nat, entries: seq<Entry>, f: Family)
    requires RestoredUpTo(start, k, ipsets, i, f) && i < |ipsets| && PlanTyped(ipsets, f) && Lists(entries, ipsets[i].contents)
    ensures var r := Run(k, Payload(ipsets[i].name, ShapeOfSet(ipsets[i]), entries));
            && (r.ok ==> RestoredUpTo(start, r.sets, ipsets, i + 1, f))
            && OldOrNew(start, r.sets, ipsets) && ForeignKept(start, r.sets, f)
            && (Typed(start) ==> Typed(r.sets) && (r.ok <==> SetStorable(ipsets[i])))
  {
    hide Run, Payload, Lists, OldOrNew, Typed, SetStorable;
    var s := ipsets[i];
    assert s in ipsets;
    RestoreOne(k, s, entries, f);
    var r := Run(k, Payload(s.name, ShapeOfSet(s), entries));
    OldOrNewStep(start, k, r.sets, ipsets, s);
    assert s.name.family == f;
    ForeignKeptStep(start, k, r.sets, s.name, f);
    assert ipsets[..i+1][..i] == ipsets[..i];
  }

  lemma {:induction false} ForeignKeptStep(start: SetTable, k: SetTable, after: SetTable, name: SetName, f: Family)
    requires ForeignKept(start, k, f) && OthersKept(k, after, name) && name.family == f
    ensures ForeignKept(start, after, f)
  {
    forall n: KernelName | n.set_.family != f
      ensures (n in after <==> n in start) && (n in start ==> after[n] == start[n])
    {
      assert n != Live(name) && n != Tmp(name);
    }
  }

  predicate Distinct(families: seq<Family>) {
    forall i, j :: 0 <= i < j < |families| ==> families[i] != families[j]
  }

  /** A family's chains change only to a plan whose sets are live. */
  ghost predicate ChangedInForce(f0: Filters, filters: Filters, sets: SetTable, world: World, cfg: Config) {
    forall f :: f in filters && (f !in f0 || filters[f] != f0[f]) ==> InForce(sets, filters, world, ForFamily(cfg, f))
  }

  /** The first `i` families of a pass are done. */
  ghost predicate PassedUpTo(
    s0: SetTable, f0: Filters, sets: SetTable, filters: Filters, heads: Heads, world: World, cfg: Config,
    families: seq<Family>, i: nat)
  {
    && i <= |families| && Distinct(families)
    && (forall j :: 0 <= j < i ==> InForce(sets, filters, world, ForFamily(cfg, families[j])) && JumpsInForce(heads, families[j]))
    && (forall j :: i <= j < |families| ==> FilterKept(f0, filters, families[j]))
    && ChangedInForce(f0, filters, sets, world, cfg)
    && OldOrNew(s0, sets, PlannedSets(world, cfg, families))
    && (Typed(s0) ==> Typed(sets) && forall j :: 0 <= j < i ==> WorldStorable(world, families[j]))
  }

  ghost predicate FilterKept(f0: Filters, filters: Filters, f: Family) {
    (f in filters <==> f in f0) && (f in f0 ==> filters[f] == f0[f])
  }

  lemma {:induction false} NonePassed(sets: SetTable, filters: Filters, heads: Heads, world: World, cfg: Config, families: seq<Family>)
    requires Distinct(families)
    ensures PassedUpTo(sets, filters, sets, filters, heads, world, cfg, families, 0)
  {
    hide InForce;
  }

  lemma {:induction false} PlannedOfFamily(world: World, cfg: Config, families: seq<Family>, i: nat)
    requires i < |families|
    ensures forall s :: s in Compile(world, ForFamily(cfg, families[i])).ipsets ==> s in PlannedSets(world, cfg, families)
  {
    hide Compile;
    if i < |families| - 1 {
      PlannedOfFamily(world, cfg, families[..|families|-1], i);
    }
  }

  lemma {:induction false} OldOrNewWiden(k: SetTable, mid: SetTable, after: SetTable, part: seq<IpsetPlan>, all: seq<IpsetPlan>)
    requires OldOrNew(k, mid, all) && OldOrNew(mid, after, part) && forall s :: s in part ==> s in all
    ensures OldOrNew(k, after, all)
  {
    forall n | Live(n) in after
      ensures || (Live(n) in k && after[Live(n)] == k[Live(n)])
              || (Live(n) !in k && exists t :: t in all && t.name == n && after[Live(n)] == Empty(ShapeOfSet(t)))
              || exists t :: t in all && t.name == n && after[Live(n)] == KSet(t.family, t.contents)
    {
      if Live(n) !in mid && !(exists s :: s in part && s.name == n && after[Live(n)] == KSet(s.family, s.contents)) {
        var s :| s in part && s.name == n && after[Live(n)] == Empty(ShapeOfSet(s));
        assert Live(n) !in k;
      }
    }
  }

  lemma {:induction false} ForeignInForce(before: SetTable, after: SetTable, filters: Filters, f: Family, world: World, cfg: Config)
    requires ForeignKept(before, after, f) && cfg.family != f && InForce(before, filters, world, cfg)
    ensures InForce(after, filters, world, cfg)
  {
    hide Compile, ChainsInForce;
    CompiledSetsTyped(world, cfg);
    var ipsets := Compile(world, cfg).ipsets;
    forall n | n in SetsOf(ipsets)
      ensures Live(n) in after && after[Live(n)].contents == SetsOf(ipsets)[n]
    {
      SetsOfFamily(ipsets, cfg.family, n);
      assert Live(n).set_.family != f;
    }
  }

  lemma {:induction false} StorableIff(world: World, cfg: Config)
    ensures AllSetsStorable(Compile(world, cfg).ipsets) <==> WorldStorable(world, cfg.family)
  {
    hide Compile, WorldStorable, AllSetsStorable;
    if WorldStorable(world, cfg.family) {
      StorableWorldStores(world, cfg);
    }
    if AllSetsStorable(Compile(world, cfg).ipsets) {
      StoredWorldStorable(world, cfg);
    }
  }

  /** Restoring a family's sets, finished or not, keeps everything done so far. */
  lemma {:induction false} SetsPassed(
    s0: SetTable, f0: Filters, before: SetTable, sets: SetTable, filters: Filters, heads: Heads, world: World, cfg: Config,
    families: seq<Family>, i: nat)
    requires i < |families| && PassedUpTo(s0, f0, before, filters, heads, world, cfg, families, i)
    requires OldOrNew(before, sets, Compile(world, ForFamily(cfg, families[i])).ipsets) && ForeignKept(before, sets, families[i])
    requires Typed(before) ==> Typed(sets)
    ensures PassedUpTo(s0, f0, sets, filters, heads, world, cfg, families, i)
    ensures AllSetsStorable(Compile(world, ForFamily(cfg, families[i])).ipsets) <==> WorldStorable(world, families[i])
  {
    hide Compile, InForce, OldOrNew, Typed, WorldStorable, AllSetsStorable, JumpsInForce, ForeignKept, PlannedSets;
    var f := families[i];
    StorableIff(world, ForFamily(cfg, f));
    PlannedOfFamily(world, cfg, families, i);
    OldOrNewWiden(s0, before, sets, Compile(world, ForFamily(cfg, f)).ipsets, PlannedSets(world, cfg, families));
    forall g: Family | g != f && InForce(before, filters, world, ForFamily(cfg, g))
      ensures InForce(sets, filters, world, ForFamily(cfg, g))
    {
      ForeignInForce(before, sets, filters, f, world, ForFamily(cfg, g));
    }
    assert FilterKept(f0, filters, f);
  }

  lemma {:induction false} RulesAdmitted(before: SetTable, f: Filter, world: World, cfg: Config)
    ensures var plan := Compile(world, cfg);
            Loadable(f, plan, LiveSetsOf(ReplacedAll(before, plan.ipsets)))
  {
    hide Compile, Loadable, ReplacedAll;
    CompiledPlanIsWellFormed(world, cfg);
    RestoredSetsAdmitRules(before, f, Compile(world, cfg));
  }

  lemma {:induction false} RulesPassed(
    s0: SetTable, f0: Filters, before: SetTable, sets: SetTable, filters: Filters, heads: Heads, after: Heads, world: World, cfg: Config,
    families: seq<Family>, i: nat)
    requires i < |families| && PassedUpTo(s0, f0, sets, filters, heads, world, cfg, families, i)
    requires sets == ReplacedAll(before, Compile(world, ForFamily(cfg, families[i])).ipsets)
    requires WorldStorable(world, families[i]) || !Typed(s0)
    requires JumpsInForce(after, families[i])
    requires forall g :: g != families[i] && JumpsInForce(heads, g) ==> JumpsInForce(after, g)
    ensures var plan, f := Compile(world, ForFamily(cfg, families[i])), families[i];
            PassedUpTo(s0, f0, sets, filters[f := LoadInto(FilterOf(filters, f), plan)], after, world, cfg, families, i + 1)
  {
    hide Compile, OldOrNew, Typed, WorldStorable, JumpsInForce, ForeignKept, PlannedSets, SetsInForce, ChainsInForce, ReplacedAll,
         LoadInto, Loadable, WellFormed;
    var f := families[i];
    var plan := Compile(world, ForFamily(cfg, f));
    CompiledPlanIsWellFormed(world, ForFamily(cfg, f));
    RestoredSetsAdmitRules(before, FilterOf(filters, f), plan);
    var loaded := filters[f := LoadInto(FilterOf(filters, f), plan)];
    assert InForce(sets, loaded, world, ForFamily(cfg, f));
    forall g: Family | g != f && InForce(sets, filters, world, ForFamily(cfg, g))
      ensures InForce(sets, loaded, world, ForFamily(cfg, g))
    {
    }
  }

  class Controller {
    const node: Node
    const families: seq<Family>
    const cfg: Config

    constructor (node: Node, families: seq<Family>, cfg: Config)
      ensures this.node == node && this.families == families && this.cfg == cfg
    {
      this.node, this.families, this.cfg := node, families, cfg;
    }

    /** The set half of a family's pass. */
    method RestoreSets(ipsets: seq<IpsetPlan>, ghost f: Family) returns (ok: bool)
      requires PlanTyped(ipsets, f)
      modifies node`sets
      ensures ok ==> node.sets == ReplacedAll(old(node.sets), ipsets)
      ensures Typed(old(node.sets)) ==> Typed(node.sets) && (ok <==> AllSetsStorable(ipsets))
      ensures OldOrNew(old(node.sets), node.sets, ipsets) && ForeignKept(old(node.sets), node.sets, f)
    {
      hide Run, Typed, OldOrNew, ForeignKept, SetStorable, Lists, Payload, ReplacedAll, PlanTyped;
      ghost var start := node.sets;
      RestoredNone(start, ipsets, f);
      for i := 0 to |ipsets|
        invariant RestoredUpTo(start, node.sets, ipsets, i, f)
      {
        var s := ipsets[i];
        var entries := Listing(s.contents);
        var payload := BuildRestorePayload(s.name, ShapeOfSet(s), entries);
        ghost var before := node.sets;
        ok := node.Restore(payload);
        RestoreStep(start, before, ipsets, i, entries, f);
        if !ok {
          return;
        }
      }
      assert ipsets[..|ipsets|] == ipsets;
      ok := true;
    }

    /** The rest of a family's pass: chains and rules in one document, then the builtin jumps. */
    method LoadRules(f: Family, plan: Plan) returns (ok: bool)
      modifies node`filters, node`heads
      ensures ok == Loadable(FilterOf(old(node.filters), f), plan, LiveSetsOf(node.sets))
      ensures node.filters == if ok then old(node.filters)[f := LoadInto(FilterOf(old(node.filters), f), plan)]
                              else old(node.filters)
      ensures ok ==> JumpsInForce(node.heads, f)
      ensures forall g :: g != f && JumpsInForce(old(node.heads), g) ==> JumpsInForce(node.heads, g)
    {
      hide Loadable, LoadInto, LiveSetsOf;
      ok := node.RestoreFilter(f, plan);
      if !ok {
        return;
      }
      node.EnsureJump(f, Input, RouterInput);
      node.EnsureJump(f, Forward, RouterForward);
      node.EnsureJump(f, Output, RouterOutput);
    }

    /** `FirewallController::reconcile` for one snapshot. */
    method Reconcile(world: World) returns (ok: bool)
      requires Distinct(families)
      modifies node
      ensures ok ==> forall f :: f in families ==>
                       && InForce(node.sets, node.filters, world, ForFamily(cfg, f))
                       && RouterInput in HeadOf(node.heads, f, Input) && RouterForward in HeadOf(node.heads, f, Forward)
                       && RouterOutput in HeadOf(node.heads, f, Output)
      ensures OldOrNew(old(node.sets), node.sets, PlannedSets(world, cfg, families))
      ensures ChangedInForce(old(node.filters), node.filters, node.sets, world, cfg)
      ensures Typed(old(node.sets)) ==>
                Typed(node.sets) && (ok <==> forall f :: f in families ==> WorldStorable(world, f))
    {
      hide InForce, JumpsInForce, OldOrNew, Typed, ChangedInForce, WorldStorable, PlanTyped, Compile, AllSetsStorable,
           ForeignKept, Loadable, ReplacedAll, LoadInto, LiveSetsOf, FilterOf;
      ghost var sets, filters := node.sets, node.filters;
      NonePassed(sets, filters, node.heads, world, cfg, families);
      for i := 0 to |families|
        invariant PassedUpTo(sets, filters, node.sets, node.filters, node.heads, world, cfg, families, i)
      {
        var f := families[i];
        var built := BuildPlan(world, ForFamily(cfg, f));
        var plan := built.Contents();
        CompiledSetsTyped(world, ForFamily(cfg, f));
        ghost var before := node.sets;
        ok := RestoreSets(plan.ipsets, f);
        SetsPassed(sets, filters, before, node.sets, node.filters, node.heads, world, cfg, families, i);
        if !ok {
          return;
        }
        ghost var restored, heads := node.filters, node.heads;
        RulesAdmitted(before, FilterOf(restored, f), world, ForFamily(cfg, f));
        ok := LoadRules(f, plan);
        RulesPassed(sets, filters, before, node.sets, restored, heads, node.heads, world, cfg, families, i);
      }
      JumpHeads(node.heads, families);
      ok := true;
    }
  }

  // ---- the packets' view ----------------------------------------------------------------------------

  ghost predicate SetsAgree(sets: Sets, wider: Sets) {
    forall n :: n in sets ==> n in wider && wider[n] == sets[n]
  }

  ghost predicate ChainsAgree(plan: Plan, wider: Plan) {
    forall c :: c in plan.decls ==> c in wider.decls && RulesOf(wider.rules, c) == RulesOf(plan.rules, c)
  }

  lemma {:induction false} SameLine(plan: Plan, sets: Sets, wider: Plan, more: Sets, l: Line, pkt: Packet, mark: Mark)
    requires LineKnown(l, plan.decls, sets) && ChainsAgree(plan, wider) && SetsAgree(sets, more)
    ensures LineKnown(l, wider.decls, more)
    ensures MatchAll(l.matches, more, pkt, mark) == MatchAll(l.matches, sets, pkt, mark)
  {
    forall m | m in l.matches
      ensures MatchKnown(m, more) && MatchOne(m, more, pkt, mark) == MatchOne(m, sets, pkt, mark)
    {
      assert MatchKnown(m, sets);
    }
  }

  /** Whatever else a kernel holds, the chains and sets of a well-formed plan run as the plan does. */
  lemma {:induction false} SameRun(plan: Plan, wider: Plan, more: Sets, c: Chain, rules: seq<Line>, pkt: Packet, mark: Mark)
    requires WellFormed(plan) && ChainsAgree(plan, wider) && SetsAgree(SetsOf(plan.ipsets), more)
    requires forall l :: l in rules ==> l in plan.rules && l.chain == c
    ensures RunRules(wider, more, c, rules, pkt, mark) == RunRules(plan, SetsOf(plan.ipsets), c, rules, pkt, mark)
    decreases Rank(c), |rules|
  {
    hide MatchAll;
    if rules != [] {
      var sets, line := SetsOf(plan.ipsets), rules[0];
      assert line in rules;
      SameLine(plan, sets, wider, more, line, pkt, mark);
      if MatchAll(line.matches, sets, pkt, mark) && line.target.Jump? {
        var t := line.target.chain;
        SameChainLines(plan, t);
        SameRun(plan, wider, more, t, RulesOf(plan.rules, t), pkt, mark);
        assert RunChain(wider, more, t, pkt, mark) == RunChain(plan, sets, t, pkt, mark);
      }
      var step := RunLine(plan, sets, c, line, pkt, mark);
      assert step == RunLine(wider, more, c, line, pkt, mark);
      if step.Fell? {
        assert forall l :: l in rules[1..] ==> l in rules;
        SameRun(plan, wider, more, c, rules[1..], pkt, step.mark);
      }
    }
  }

  lemma {:induction false} SameChainLines(plan: Plan, c: Chain)
    ensures forall l :: l in RulesOf(plan.rules, c) ==> l in plan.rules && l.chain == c
  {
    forall l | l in RulesOf(plan.rules, c)
      ensures l in plan.rules && l.chain == c
    {
      RulesOfMembers(plan.rules, c, l);
    }
  }

  /** After a successful pass, traversing a kernel chain is running the compiled plan, stale chains and
      sets of earlier passes or of the other family notwithstanding. */
  lemma {:induction false} KernelRunsThePlan(sets: SetTable, filters: Filters, world: World, cfg: Config, c: Chain, pkt: Packet, mark: Mark)
    requires InForce(sets, filters, world, cfg) && c in Compile(world, cfg).decls
    ensures Traverse(filters[cfg.family], LiveSetsOf(sets), c, pkt, mark) == Verdict(Compile(world, cfg), c, pkt, mark)
  {
    hide Compile, WellFormed;
    var plan, filter, live := Compile(world, cfg), filters[cfg.family], LiveSetsOf(sets);
    var wider := Plan([], filter.chains, filter.rules);
    CompiledPlanIsWellFormed(world, cfg);
    forall n | n in SetsOf(plan.ipsets)
      ensures n in live && live[n] == SetsOf(plan.ipsets)[n]
    {
      assert Live(n) in sets && Live(n).set_ == n;
    }
    SameChainLines(plan, c);
    SameRun(plan, wider, live, c, RulesOf(plan.rules, c), pkt, mark);
  }

  /** End to end: after a successful pass, the kernel rejects a packet exactly when the policies deny it. */
  lemma {:induction false} KernelEnforcesPolicies(
    sets: SetTable, filters: Filters, world: World, cfg: Config, c: Chain, pkt: Packet, mark: Mark)
    requires InForce(sets, filters, world, cfg)
    requires Checkable(world, cfg, pkt) && NoPolicyOnBothEnds(world, pkt) && Routed(c) && 16 !in mark && !cfg.defaultDeny
    ensures Traverse(filters[cfg.family], LiveSetsOf(sets), c, pkt, mark).Rejected? <==>
            exists pod, dir :: LocalEnd(pod, dir, world, cfg, pkt) && Denies(pod, dir, pkt, world)
  {
    hide Compile, Checkable, Denies, InForce, NoPolicyOnBothEnds, Traverse, LiveSetsOf;
    CompileDeclares(world, cfg);
    KernelRunsThePlan(sets, filters, world, cfg, c, pkt, mark);
    MeaningPreserved(world, cfg, c, pkt, mark);
  }

  /** And the kernel is stateful: what belongs to a connection of an isolated pod of the node is accepted, what
      is invalid dropped, whatever the policies. */
  lemma {:induction false} KernelIsStateful(
    sets: SetTable, filters: Filters, world: World, cfg: Config, c: Chain, pkt: Packet, mark: Mark)
    requires InForce(sets, filters, world, cfg) && NamesUnique(world) && OfFamily(cfg, pkt) && Routed(c)
    requires Guarded(world, cfg, pkt.src) || Guarded(world, cfg, pkt.dst)
    ensures var o := Traverse(filters[cfg.family], LiveSetsOf(sets), c, pkt, mark);
            && (pkt.state == Invalid ==> o == Dropped)
            && (pkt.state == Related || pkt.state == Established ==> o == Accepted)
            && (pkt.state == New && PermittedIcmp(pkt, cfg.family) ==> o == Accepted)
  {
    hide Compile, InForce, Guarded, Traverse, LiveSetsOf, NamesUnique, Programmed, PermittedIcmp;
    CompileDeclares(world, cfg);
    KernelRunsThePlan(sets, filters, world, cfg, c, pkt, mark);
    GuardedIff(world, cfg, pkt.src);
    GuardedIff(world, cfg, pkt.dst);
    var a := if Guarded(world, cfg, pkt.src) then pkt.src else pkt.dst;
    var pod :| pod in world.pods && a in pod.ips && Programmed(pod, world, cfg) && a.family == cfg.family;
    assert Judges(pod, world, cfg, pkt);
    if CommonDecides(pkt, cfg.family) {
      StatefulExact(world, cfg, c, pkt, mark);
    }
  }

  // ---- a world that does not load ----------------------------------------------------------------

  const ANYWHERE: IpNet := Cidr(Ip(V4, 0), 0)
  const FROM_ANYWHERE := Rule([IpBlock(ANYWHERE, [])], [])
  /** Admits every IPv4 address by an ipBlock. */
  const OPEN_POLICY := NetworkPolicy("default", "p", EVERYTHING, true, false, [FROM_ANYWHERE], [])
  const OPEN_WORLD := World([OPEN_POLICY], [], [])
  const ANYWHERE_SET := IpsetPlan(PolicySet("default", "p", PeerBlocks(Ingress, 0), V4), V4, HashNet([NetEntry(ANYWHERE, false)]))

  lemma {:induction false} AnywhereNets()
    ensures BlockNets(FROM_ANYWHERE.peers, V4) == [NetEntry(ANYWHERE, false)]
  {
    var peers := FROM_ANYWHERE.peers;
    assert peers[..0] == [] && BlockNets(peers[..0], V4) == [];
    assert PeerNets(peers[0], V4) == [NetEntry(ANYWHERE, false)] + Excepts([]);
    assert Excepts([]) == [];
  }

  /** The block means every address, and the set compiled for it is refused by every kernel: a sync of this
      world fails. */
  lemma {:induction false} AnywhereBlockIsRefused(k: SetTable, entries: seq<Entry>, a: IpAddr)
    requires Typed(k) && Lists(entries, ANYWHERE_SET.contents) && a.family == V4 && a.bits < Pow2(32)
    ensures BlocksAdmit(FROM_ANYWHERE.peers, a)
    ensures ANYWHERE_SET in Compile(OPEN_WORLD, NEAR_NODE).ipsets && !WorldStorable(OPEN_WORLD, V4)
    ensures !Run(k, Payload(ANYWHERE_SET.name, ShapeOfSet(ANYWHERE_SET), entries)).ok
  {
    hide Compile, PolicyEmission, Run, Payload, WorldStorable, Pow2, Lists, Typed;
    AnywhereNets();
    var block := FROM_ANYWHERE.peers[0];
    assert Size(ANYWHERE) == Pow2(32);
    DivModUnique(a.bits, Pow2(32), 0, a.bits);
    DivModUnique(0, Pow2(32), 0, 0);
    assert BlockAdmits(block, a);
    assert OPEN_POLICY.ingress[0] == FROM_ANYWHERE;
    RuleBlocksEmitted(OPEN_POLICY, Ingress, 0, OPEN_WORLD, V4);
    assert OPEN_WORLD.policies[0] == OPEN_POLICY;
    PolicySetsPushed(OPEN_POLICY, OPEN_WORLD, NEAR_NODE, ANYWHERE_SET);
    assert !SetStorable(ANYWHERE_SET) by {
      var e := ANYWHERE_SET.contents.nets[0];
      assert e in ANYWHERE_SET.contents.nets && e.net.len == 0;
    }
    StorableIff(OPEN_WORLD, NEAR_NODE);
    RestoreOne(k, ANYWHERE_SET, entries, V4);
  }
}
