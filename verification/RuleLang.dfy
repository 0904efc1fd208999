// The target language of the firewall compiler: iptables chains over ipsets and packet marks,
// with the interpreter that gives a plan its meaning.

module RuleLang {
  import opened Net
  import opened Translate

  datatype Direction = Ingress | Egress

  datatype Side = Src | Dst

  /** Names are injective constructors: the real ones hash the same components. */
  datatype Chain =
    | RouterInput
    | RouterForward
    | RouterOutput
    | Common
    | Default
    | Tail
    | PodChain(namespace: string, pod: string, syncVersion: string)
    | PolicyChain(namespace: string, policy: string, syncVersion: string, family: Family)

  datatype SetKind =
    | Targets(dir: Direction)
    | PeerPods(dir: Direction, rule: nat)
    | PeerBlocks(dir: Direction, rule: nat)
    | NamedPort(dir: Direction, rule: nat, group: nat)

  datatype SetName =
    | PolicySet(namespace: string, policy: string, kind: SetKind, family: Family)
    | LocalPods(family: Family)

  /** hash:ip contents are a set of addresses, hash:net contents a list of prefixes in order of addition. */
  datatype SetContents = HashIp(ips: set<IpAddr>) | HashNet(nets: seq<NetEntry>)

  datatype IpsetPlan = IpsetPlan(name: SetName, family: Family, contents: SetContents)

  /** A packet mark, as the set of its bits. */
  type Mark = set<nat>

  const MATCHED: Mark := {16}   // 0x10000
  const ACCEPTED: Mark := {17}  // 0x20000

  datatype CtState = New | Established | Related | Invalid

  datatype Packet = Packet(
    src: IpAddr,
    dst: IpAddr,
    proto: string,
    dport: nat,
    icmpKind: string,
    state: CtState,
    srcLocal: bool,
    dstLocal: bool,
    bridged: bool)

  datatype Match =
    | From(addr: IpAddr)
    | To(addr: IpAddr)
    | FromNet(net: IpNet)
    | ToNet(net: IpNet)
    | InSet(name: SetName, side: Side)
    | NotInSet(name: SetName, side: Side)
    | Proto(proto: string)
    | DPort(port: nat)
    | DPorts(lo: nat, hi: nat)
    | Icmp(proto: string, kind: string)
    | StateInvalid
    | StateTracked
    | SrcTypeLocal
    | DstTypeLocal
    | Bridged
    | MarkIs(value: Mark, mask: Mark)
    | MarkIsNot(value: Mark, mask: Mark)

  datatype Target =
    | Jump(chain: Chain)
    | Accept
    | Drop
    | Reject
    | Return
    | Nflog
    | SetXmark(value: Mark, mask: Mark)
    | SetMark(value: Mark, mask: Mark)

  /** `-A chain matches -j target`. */
  datatype Line = Line(chain: Chain, matches: seq<Match>, target: Target)

  datatype Plan = Plan(ipsets: seq<IpsetPlan>, decls: seq<Chain>, rules: seq<Line>)

  type Sets = map<SetName, SetContents>

  /** The live sets after applying the ipset list in order: each entry replaces its set. */
  function SetsOf(ipsets: seq<IpsetPlan>): Sets {
    if ipsets == [] then map[] else
      var last := ipsets[|ipsets|-1];
      SetsOf(ipsets[..|ipsets|-1])[last.name := last.contents]
  }

  lemma {:induction false} SetsOfKeys(ipsets: seq<IpsetPlan>)
    ensures forall n :: n in SetsOf(ipsets) <==> exists s :: s in ipsets && s.name == n
    ensures forall n :: n in SetsOf(ipsets) ==> exists s :: s in ipsets && s.name == n && s.contents == SetsOf(ipsets)[n]
  {
    if ipsets != [] {
      var rest, last := ipsets[..|ipsets|-1], ipsets[|ipsets|-1];
      SetsOfKeys(rest);
      assert ipsets == rest + [last];
      assert last in ipsets;
      forall n | n in SetsOf(ipsets)
        ensures exists s :: s in ipsets && s.name == n && s.contents == SetsOf(ipsets)[n]
      {
        if n != last.name {
          assert n in SetsOf(rest) && SetsOf(ipsets)[n] == SetsOf(rest)[n];
          var s :| s in rest && s.name == n && s.contents == SetsOf(rest)[n];
          assert s in ipsets;
        }
      }
    }
  }

  // ---- interpreter ---------------------------------------------------------

  function SideOf(pkt: Packet, side: Side): IpAddr {
    if side.Src? then pkt.src else pkt.dst
  }

  predicate SetHas(c: SetContents, a: IpAddr) {
    match c
    case HashIp(ips) => a in ips
    case HashNet(nets) => NetLookup(nets, a)
  }

  predicate Lookup(sets: Sets, name: SetName, a: IpAddr) {
    name in sets && SetHas(sets[name], a)
  }

  predicate MatchOne(m: Match, sets: Sets, pkt: Packet, mark: Mark) {
    match m
    case From(a) => pkt.src == a
    case To(a) => pkt.dst == a
    case FromNet(n) => Contains(n, pkt.src)
    case ToNet(n) => Contains(n, pkt.dst)
    case InSet(name, side) => Lookup(sets, name, SideOf(pkt, side))
    case NotInSet(name, side) => !Lookup(sets, name, SideOf(pkt, side))
    case Proto(p) => pkt.proto == p
    case DPort(n) => pkt.dport == n
    case DPorts(lo, hi) => lo <= pkt.dport <= hi
    case Icmp(p, k) => pkt.proto == p && pkt.icmpKind == k
    case StateInvalid => pkt.state == Invalid
    case StateTracked => pkt.state == Related || pkt.state == Established
    case SrcTypeLocal => pkt.srcLocal
    case DstTypeLocal => pkt.dstLocal
    case Bridged => pkt.bridged
    case MarkIs(v, k) => mark * k == v
    case MarkIsNot(v, k) => mark * k != v
  }

  predicate MatchAll(ms: seq<Match>, sets: Sets, pkt: Packet, mark: Mark) {
    forall m | m in ms :: MatchOne(m, sets, pkt, mark)
  }

  /** `Fell` is reaching the end of a chain; `Malformed` is what iptables would refuse to load. */
  datatype Outcome =
    | Accepted
    | Dropped
    | Rejected
    | Fell(mark: Mark)
    | Returned(mark: Mark)
    | Malformed

  /** Jumps only go down: top-level chains, pod chains, then the leaves. */
  function Rank(c: Chain): nat {
    match c
    case RouterInput => 2
    case RouterForward => 2
    case RouterOutput => 2
    case PodChain(_, _, _) => 1
    case _ => 0
  }

  function RulesOf(rules: seq<Line>, c: Chain): seq<Line> {
    if rules == [] then [] else
      (if rules[0].chain == c then [rules[0]] else []) + RulesOf(rules[1..], c)
  }

  predicate MatchKnown(m: Match, sets: Sets) {
    (m.InSet? || m.NotInSet?) ==> m.name in sets
  }

  predicate LineKnown(line: Line, decls: seq<Chain>, sets: Sets) {
    && line.chain in decls
    && (forall m | m in line.matches :: MatchKnown(m, sets))
    && (line.target.Jump? ==> line.target.chain in decls && Rank(line.target.chain) < Rank(line.chain))
  }

  /** Everything a line refers to exists, and the jump graph is ranked. */
  predicate WellFormed(plan: Plan) {
    forall line | line in plan.rules :: LineKnown(line, plan.decls, SetsOf(plan.ipsets))
  }

  function NewMark(t: Target, mark: Mark): Mark {
    match t
    case SetXmark(v, k) => (mark - k) + v - (mark - k) * v
    case SetMark(v, k) => (mark - k) + v
    case _ => mark
  }

  function RunChain(plan: Plan, sets: Sets, c: Chain, pkt: Packet, mark: Mark): Outcome
    decreases Rank(c), 1, 0
  {
    if c !in plan.decls then Malformed else
      match RunRules(plan, sets, c, RulesOf(plan.rules, c), pkt, mark)
      case Returned(m) => Fell(m)
      case o => o
  }

  function RunRules(plan: Plan, sets: Sets, c: Chain, rules: seq<Line>, pkt: Packet, mark: Mark): Outcome
    decreases Rank(c), 0, |rules|
  {
    if rules == [] then Fell(mark) else
      var step := RunLine(plan, sets, c, rules[0], pkt, mark);
      if step.Fell? then RunRules(plan, sets, c, rules[1..], pkt, step.mark) else step
  }

  /** One line: `Fell` means the traversal goes on with the next line. */
  function RunLine(plan: Plan, sets: Sets, c: Chain, line: Line, pkt: Packet, mark: Mark): Outcome
    decreases Rank(c), 0, 0
  {
    if !LineKnown(line, plan.decls, sets) || line.chain != c then Malformed
    else if !MatchAll(line.matches, sets, pkt, mark) then Fell(mark)
    else
      match line.target
      case Jump(t) => RunChain(plan, sets, t, pkt, mark)
      case Accept => Accepted
      case Drop => Dropped
      case Reject => Rejected
      case Return => Returned(mark)
      case Nflog => Fell(mark)
      case SetXmark(_, _) => Fell(NewMark(line.target, mark))
      case SetMark(_, _) => Fell(NewMark(line.target, mark))
  }

  /** A plan run on its own sets. */
  function Verdict(plan: Plan, c: Chain, pkt: Packet, mark: Mark): Outcome {
    RunChain(plan, SetsOf(plan.ipsets), c, pkt, mark)
  }

  // ---- facts about the interpreter ------------------------------------------

  lemma {:induction false} RulesOfAppend(a: seq<Line>, b: seq<Line>, c: Chain)
    ensures RulesOf(a + b, c) == RulesOf(a, c) + RulesOf(b, c)
  {
    if a == [] {
      assert a + b == b;
    } else {
      RulesOfAppend(a[1..], b, c);
      assert (a + b)[1..] == a[1..] + b;
    }
  }

  lemma {:induction false} RulesOfAll(a: seq<Line>, c: Chain)
    requires forall l :: l in a ==> l.chain == c
    ensures RulesOf(a, c) == a
  {
    if a != [] {
      RulesOfAll(a[1..], c);
    }
  }

  lemma {:induction false} RulesOfNone(a: seq<Line>, c: Chain)
    requires forall l :: l in a ==> l.chain != c
    ensures RulesOf(a, c) == []
  {
    if a != [] {
      RulesOfNone(a[1..], c);
    }
  }

  lemma {:induction false} RulesOfMembers(a: seq<Line>, c: Chain, l: Line)
    ensures l in RulesOf(a, c) <==> l in a && l.chain == c
  {
    if a != [] {
      RulesOfMembers(a[1..], c, l);
    }
  }

  lemma {:induction false} RunAppend(plan: Plan, sets: Sets, c: Chain, a: seq<Line>, b: seq<Line>, pkt: Packet, mark: Mark)
    ensures RunRules(plan, sets, c, a + b, pkt, mark) ==
            var o := RunRules(plan, sets, c, a, pkt, mark);
            if o.Fell? then RunRules(plan, sets, c, b, pkt, o.mark) else o
    decreases |a|
  {
    if a == [] {
      assert a + b == b;
    } else {
      assert (a + b)[0] == a[0] && (a + b)[1..] == a[1..] + b;
      var step := RunLine(plan, sets, c, a[0], pkt, mark);
      if step.Fell? {
        RunAppend(plan, sets, c, a[1..], b, pkt, step.mark);
      }
    }
  }

  lemma {:induction false} RunOne(plan: Plan, sets: Sets, c: Chain, line: Line, pkt: Packet, mark: Mark)
    ensures RunRules(plan, sets, c, [line], pkt, mark) == RunLine(plan, sets, c, line, pkt, mark)
  {
    var step := RunLine(plan, sets, c, line, pkt, mark);
    if step.Fell? {
      assert RunRules(plan, sets, c, [line][1..], pkt, step.mark) == Fell(step.mark);
    }
  }

  lemma {:induction false} MatchAllAppend(a: seq<Match>, b: seq<Match>, sets: Sets, pkt: Packet, mark: Mark)
    ensures MatchAll(a + b, sets, pkt, mark) <==> MatchAll(a, sets, pkt, mark) && MatchAll(b, sets, pkt, mark)
  {
    assert forall m :: m in a + b <==> m in a || m in b;
  }

  /** A well-formed plan never asks iptables for something that does not exist. */
  lemma {:induction false} WellFormedRuns(plan: Plan, c: Chain, rules: seq<Line>, pkt: Packet, mark: Mark)
    requires WellFormed(plan)
    requires forall l :: l in rules ==> l in plan.rules && l.chain == c
    ensures !RunRules(plan, SetsOf(plan.ipsets), c, rules, pkt, mark).Malformed?
    decreases Rank(c), |rules|
  {
    if rules != [] {
      var sets, line := SetsOf(plan.ipsets), rules[0];
      assert line in rules;
      assert LineKnown(line, plan.decls, sets);
      if MatchAll(line.matches, sets, pkt, mark) && line.target.Jump? {
        var t := line.target.chain;
        forall l | l in RulesOf(plan.rules, t)
          ensures l in plan.rules && l.chain == t
        {
          RulesOfMembers(plan.rules, t, l);
        }
        WellFormedRuns(plan, t, RulesOf(plan.rules, t), pkt, mark);
        assert !RunChain(plan, sets, t, pkt, mark).Malformed?;
      }
      var step := RunLine(plan, sets, c, line, pkt, mark);
      assert !step.Malformed?;
      if step.Fell? {
        assert forall l :: l in rules[1..] ==> l in rules;
        WellFormedRuns(plan, c, rules[1..], pkt, step.mark);
      }
    }
  }

  lemma {:induction false} WellFormedNeverMalformed(plan: Plan, c: Chain, pkt: Packet, mark: Mark)
    requires WellFormed(plan) && c in plan.decls
    ensures !Verdict(plan, c, pkt, mark).Malformed? && !Verdict(plan, c, pkt, mark).Returned?
  {
    forall l | l in RulesOf(plan.rules, c)
      ensures l in plan.rules && l.chain == c
    {
      RulesOfMembers(plan.rules, c, l);
    }
    WellFormedRuns(plan, c, RulesOf(plan.rules, c), pkt, mark);
  }
}
