// The source language of the firewall compiler: projected NetworkPolicies, pods and namespaces.

module PolicyModel {
  import opened Wrappers
  import opened Net

  datatype SelectorOp = In | NotIn | Exists | DoesNotExist

  /** `op` is `None` for an operator the projection did not recognise. */
  datatype Requirement = Requirement(key: string, op: Option<SelectorOp>, values: seq<string>)

  datatype LabelSelector = LabelSelector(matchLabels: map<string, string>, matchExpressions: seq<Requirement>)

  type Labels = map<string, string>

  predicate RequirementHolds(req: Requirement, labels: Labels) {
    match req.op
    case Some(In) => req.key in labels && labels[req.key] in req.values
    case Some(NotIn) => req.key !in labels || labels[req.key] !in req.values
    case Some(Exists) => req.key in labels
    case Some(DoesNotExist) => req.key !in labels
    case None => false
  }

  predicate SelectorMatches(sel: LabelSelector, labels: Labels) {
    && (forall k | k in sel.matchLabels :: k in labels && labels[k] == sel.matchLabels[k])
    && (forall req | req in sel.matchExpressions :: RequirementHolds(req, labels))
  }

  /** A `matchLabels` entry is the expression `In` of its one value. */
  lemma {:induction false} LabelIsIn(k: string, v: string, labels: Labels)
    ensures SelectorMatches(LabelSelector(map[k := v], []), labels) <==>
            SelectorMatches(LabelSelector(map[], [Requirement(k, Some(In), [v])]), labels)
  {
    var req := Requirement(k, Some(In), [v]);
    assert [req][0] == req && [v][0] == v && k in map[k := v];
    assert RequirementHolds(req, labels) <==> k in labels && labels[k] == v;
  }

  /** `In` asks for one of the values, `Exists` for any; their negations are the exact complements, and nothing
      satisfies an operator that was not recognised. */
  lemma {:induction false} OperatorLaws(k: string, values: seq<string>, labels: Labels)
    ensures RequirementHolds(Requirement(k, Some(In), values), labels) <==>
            exists v :: v in values && RequirementHolds(Requirement(k, Some(In), [v]), labels)
    ensures forall v :: RequirementHolds(Requirement(k, Some(In), [v]), labels) <==> k in labels && labels[k] == v
    ensures RequirementHolds(Requirement(k, Some(Exists), values), labels) <==>
            exists v :: RequirementHolds(Requirement(k, Some(In), [v]), labels)
    ensures RequirementHolds(Requirement(k, Some(NotIn), values), labels) <==> !RequirementHolds(Requirement(k, Some(In), values), labels)
    ensures RequirementHolds(Requirement(k, Some(DoesNotExist), values), labels) <==>
            !RequirementHolds(Requirement(k, Some(Exists), values), labels)
    ensures !RequirementHolds(Requirement(k, None, values), labels)
  {
    assert forall v: string :: v in [v];
    if k in labels {
      assert RequirementHolds(Requirement(k, Some(In), [labels[k]]), labels);
    }
  }

  /** Every entry and every expression must hold: the empty selector selects everything, and each addition
      narrows it by exactly itself. */
  lemma {:induction false} SelectorIsConjunction(sel: LabelSelector, k: string, v: string, req: Requirement, labels: Labels)
    requires k !in sel.matchLabels
    ensures SelectorMatches(LabelSelector(map[], []), labels)
    ensures SelectorMatches(LabelSelector(sel.matchLabels, sel.matchExpressions + [req]), labels) <==>
            SelectorMatches(sel, labels) && RequirementHolds(req, labels)
    ensures SelectorMatches(LabelSelector(sel.matchLabels[k := v], sel.matchExpressions), labels) <==>
            SelectorMatches(sel, labels) && k in labels && labels[k] == v
  {
    hide RequirementHolds;
    assert forall r :: r in sel.matchExpressions + [req] <==> r in sel.matchExpressions || r == req;
    var more := sel.matchLabels[k := v];
    assert forall j :: j in sel.matchLabels ==> j in more && more[j] == sel.matchLabels[j];
    assert k in more && more[k] == v;
  }

  datatype ContainerPort = ContainerPort(name: Option<string>, protocol: string, port: nat)

  datatype Pod = Pod(
    namespace: string,
    name: string,
    labels: Labels,
    ips: seq<IpAddr>,
    nodeName: string,
    hostNetwork: bool,
    ports: seq<ContainerPort>)

  datatype Namespace = Namespace(name: string, labels: Labels)

  datatype Peer =
    | Selector(namespaceSelector: Option<LabelSelector>, podSelector: Option<LabelSelector>)
    | IpBlock(cidr: IpNet, except: seq<IpNet>)

  datatype PortRef = All | Number(n: nat) | Name(name: string)

  datatype PortSpec = PortSpec(protocol: string, port: PortRef)

  /** Empty `peers` admits every peer, empty `ports` every port. */
  datatype Rule = Rule(peers: seq<Peer>, ports: seq<PortSpec>)

  datatype NetworkPolicy = NetworkPolicy(
    namespace: string,
    name: string,
    podSelector: LabelSelector,
    hasIngress: bool,
    hasEgress: bool,
    ingress: seq<Rule>,
    egress: seq<Rule>)

  /** One informer snapshot (`PolicyWorld`). */
  datatype World = World(policies: seq<NetworkPolicy>, pods: seq<Pod>, namespaces: seq<Namespace>)

  /** `policy_selects`: the policy's namespace and its pod selector; host-network pods are not excluded. */
  predicate Selects(pol: NetworkPolicy, pod: Pod) {
    pod.namespace == pol.namespace && SelectorMatches(pol.podSelector, pod.labels)
  }

  /** `pod_family_ips`. */
  function FamilyIps(ips: seq<IpAddr>, family: Family): (r: seq<IpAddr>)
    ensures forall a :: a in r <==> a in ips && a.family == family
  {
    if ips == [] then [] else
      (if ips[0].family == family then [ips[0]] else []) + FamilyIps(ips[1..], family)
  }
}
