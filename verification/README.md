# kube-router-rs: a verified model

A Dafny 4.11 model of the decisions kube-router-rs makes on a node, with proofs of what they achieve.
`dafny verify dfyconfig.toml` checks all of it. Nothing here runs the original program.

Four components are modelled.

1. **The firewall compiler** (`crates/netpol`). NetworkPolicies, pods and namespaces are compiled into
   ipsets, chains, jumps and mark rules (`Synth`). `RuleLang` is that rule language as a datatype with an
   interpreter over packet and mark; `Isolation` states, without reference to any rule, which packets the
   policies deny. The main theorems say that the compiled chains reject exactly the denied packets, never
   reject an allowed one, and close the default-deny gap; `StatefulMeaning` and `InputMeaning` give the verdicts
   on packets no policy judges and on traffic for the node. `LiveSets` says exactly when the kernel's sets are what
   was compiled, and `NamedPortClash` is a small world in which they are not. `IpsetPayload` and `FirewallController` carry this
   into the kernel: sets are replaced atomically, and after a successful sync the kernel's chains run as the
   plan does.
2. **The IPVS service reconciler** (`crates/proxy`). `ServiceSync` models the full and the incremental pass
   over a kernel table, with graceful draining; `SyncRuns` proves over runs of any length the drain invariant,
   exactly when a run converges and exactly when the two passes agree, for both ways a table can treat
   repeated writes. `Tlv` and `Genetlink` are the netlink encoding,
   `FwMark` the FWMARK registry.
3. **The LoadBalancer allocator** (`crates/lballoc` and its Lease backend). `Election` is a state machine of
   any number of nodes, stepping between clock reading, fetch and guarded write in every interleaving, with
   lost replies, late writes and crashes. `Pools`, `Allocate` and `Allocator` are the address pools and the
   allocation pass.
4. **Routing diffs** (`crates/routing`). `Inject`, `PodNet` and `Peers`: BGP route injection, direct pod
   routes and iBGP neighbours.

Code that changes state is written as classes and loops, proved against functions and predicates on values;
the theorems are about those.

## What the theorems assume

- Chain, set and temporary-set names are injective constructors. The real ones hash unseparated
  concatenations of the same components.
- Kubernetes names identify: no two policies and no two pods share namespace and name (`NamesUnique`).
- Named ports of one rule agree (`NamedPortsAgree`): wherever two of them both have a group of a given number,
  the groups hold the same addresses. Group indices restart at crates/netpol/src/synth.rs:233 for each named
  port, so two ports share set names and the later contents win. The condition is exact for the sets
  (`LiveSets.LiveSetsFaithfulIff`); where it fails pods can be misjudged both ways
  (`NamedPortClash.NamedPortsMisjudge`). Rules with one named port meet it (`LiveSets.SinglePortsAgree`), and
  the theorems on chains up to `TopMeaning.TopExact` do without it: they speak of the live sets.
- For exactness only: pod addresses are unique among pods (`PodIpsUnique`); a packet does not have the same
  pod at both ends (`OneEnded`); exceptions lie strictly inside their block (`ExceptsInside`); and an excepted
  range that decides some address, no longer prefix answering for all of it, is excepted by every block of the
  rule that covers it (`ExceptsShared`, implied by disjoint blocks and necessary: `Translate.NomatchExactIff`).
- For `MeaningPreserved` only: no policy governing both directions selects a pod at each end. The comment at
  crates/netpol/src/synth.rs:492-495 calls the ungated entry of such policies safe; it is not:
  `BothDirectionPolicyLeaks` is a packet that is denied at its receiver and let through, and
  `RejectsExactly` is the exact formula without the hypothesis.
- A named port of an egress rule is resolved on the selected peer pods, or, when no peer is listed, on any
  pod of the policy's namespace, as the comment at crates/netpol/src/synth.rs:164-175 says.
- An ipset stores elements of its own type and family, and no zero-length prefix, as the ipset manual says
  of hash:net; `Reconcile` succeeds exactly on the worlds whose blocks can be stored. A policy admitting
  0.0.0.0/0 through an ipBlock is outside them: its set is refused and the sync stops there
  (`FirewallController.AnywhereBlockIsRefused`).
- The IPVS table treats repeated writes by one of two rules, a parameter of every pass (`Ipvs.TableRule`).
  `Upsert` is the documented contract of `IpvsOps` (crates/proxy/src/ipvs.rs:86-112) and its in-memory
  implementation: every write creates or updates. `Strict` is the shipped backend, which takes "already exists"
  and "no such entry" for success (crates/proxy/src/ipvs.rs:393-396, 416-418): an addition leaves an existing
  entry alone, as the comments at crates/proxy/src/sync.rs:425-428 and 452-453 say, and an edit a missing one.
  Under `Upsert` runs converge and the two kinds of pass agree. Under `Strict` neither holds in general: a
  destination wanted back while it drains keeps weight 0 as long as it is wanted unchanged
  (`SyncRuns.WantedBackStaysDrained`, `SyncRuns.StuckWhileWanted`), and a full pass, which only adds, leaves a
  changed destination with its old parameters. The `Iff` lemmas of `SyncRuns` are the exact conditions, under
  both rules.
- A full pass does not restore an address lost from the dummy interface, whatever the comment at
  crates/proxy/src/sync.rs:281-283 suggests: bindings follow `bound_vips` (`LostAddressRestoredIff`).
- Convergence is claimed for runs of successful passes. Clock readings, connection counts, API answers and
  snapshots are parameters.
- Nodes of the election have unique identities and read one nondecreasing clock, in microseconds. The exact
  safety bound is 14 s: freshness is compared in whole seconds, so a 15 s lease can expire just after 14 s.
- The ranges of one address pool are of one family, as crates/kube-router-rs/src/main.rs:782-791 builds them.
- Numbers in netlink messages are little-endian. The comment at crates/proxy/src/genetlink.rs:92 mentions a
  nested flag; the code sets none.
- Prefixes are those of section 3.1 of RFC 4632.

## Model

| member | source | states |
|---|---|---|
| Net.ContainsIffInRange | crates/netpol/src/translate.rs:89-102 | membership in a prefix is an interval starting at the network address |
| Net.SharedAddressNests | crates/netpol/src/translate.rs:89-102 | prefixes nest or are disjoint |
| Net.CoversIff | crates/routing/src/inject.rs:72-76 | address-set inclusion of prefixes is a length comparison and one membership test |
| PolicyModel.LabelIsIn | crates/netpol/src/model.rs:58-67 | a `matchLabels` entry selects as the expression `In` of its one value |
| PolicyModel.OperatorLaws | crates/netpol/src/model.rs:67-80 | `In` holds iff the label is one of the values, `Exists` iff it is there; `NotIn` and `DoesNotExist` are their complements; an unknown operator never holds |
| PolicyModel.SelectorIsConjunction | crates/netpol/src/model.rs:56-81 | the empty selector selects everything, and every label and every expression added narrows a selector by exactly itself |
| Translate.PeerSelectsIff | crates/netpol/src/translate.rs:65-88 | a pod stands for a selector peer iff it is not host-network, its namespace is one the namespace selector picks, the policy's own without one, and its labels meet the pod selector if there is one |
| Translate.ResolvePeers | crates/netpol/src/translate.rs:49-109 | the loops over peers, pods and exceptions yield the address set and prefix list of the specification, selectors and families respected, host-network pods skipped |
| Translate.BestIsLongest | crates/netpol/src/ipset.rs:16-17 | a hash:net lookup is decided by a longest containing prefix, and by none only if none contains the address |
| Translate.SelectorIpsExact | crates/netpol/src/translate.rs:65-88 | the pod address set holds exactly the addresses of the family on pods some selector peer selects |
| Translate.NomatchExact | crates/netpol/src/translate.rs:89-102 | for exceptions inside their block and shared between blocks, the `nomatch` encoding admits an address iff some block contains it outside its exceptions |
| Translate.NomatchExactIff | crates/netpol/src/translate.rs:89-102 | for any peer list, no admitted address of the family is lost in the lookup iff every excepted range that decides some address is excepted by each block covering it; with exceptions inside their blocks this is exactly when lookup and peers agree on every address |
| Translate.UnsharedExceptLoses | crates/netpol/src/translate.rs:89-102 | otherwise any address such an unshared exception decides is admitted by the covering block and lost in the lookup |
| Translate.DisjointBlocksShareExcepts | crates/netpol/src/translate.rs:89-102 | pairwise disjoint blocks meet the sharing condition |
| Translate.ResolveExact | crates/netpol/src/translate.rs:49-109 | the resolved entries admit an address iff the peer list does, each direction under its own condition |
| RuleLang.WellFormedNeverMalformed | crates/netpol/src/iptables.rs:73-99 | a plan whose lines refer only to declared chains, pushed sets and lower-ranked jump targets never meets anything undefined at run time |
| Synth.GroupReceivers | crates/netpol/src/synth.rs:215-228 | grouping receivers by container port number gives, for each number the name resolves to, exactly the family addresses of the pods exposing it |
| Synth.FirewallPlan.EmitNamedPort | crates/netpol/src/synth.rs:214-274 | one set and one permit pair for each group in ascending port order, nothing when no receiver exposes the name |
| Synth.FirewallPlan.EmitRule | crates/netpol/src/synth.rs:122-278 | one rule's sets and permit pairs are appended to the plan, nothing else changes |
| Synth.FirewallPlan.EmitPolicyRules | crates/netpol/src/synth.rs:104-279 | all rules of one direction, in order |
| Synth.FirewallPlan.EmitPolicy | crates/netpol/src/synth.rs:404-453 | one chain for both directions, with the target set of each governed direction |
| Synth.FirewallPlan.EmitPod | crates/netpol/src/synth.rs:465-554 | a pod chain: common jump, node-local accepts, gated policy jumps, default jumps, the verdict, and the entries from the top-level chains |
| Synth.FirewallPlan.EmitTail | crates/netpol/src/synth.rs:556-602 | the tail chain with and without default deny, and the final jumps |
| Synth.BuildPods | crates/netpol/src/synth.rs:456-554 | pods of the node that some policy selects, and no others, get a chain; their addresses are collected |
| Synth.BuildPlan | crates/netpol/src/synth.rs:325-604 | the imperative compiler builds exactly the plan the theorems below are about |
| SynthWellFormed.CompileDeclares | crates/netpol/src/synth.rs:337-480 | every chain of a policy that applies and of a programmed pod is declared |
| SynthWellFormed.CompileSets | crates/netpol/src/synth.rs:412-441 | every set a policy pushes, and the local-pods set under default deny, is among the plan's sets |
| SynthWellFormed.CompiledPlanIsWellFormed | crates/netpol/src/synth.rs:337-604 | for every input, every appended chain and jump target is declared, every matched set is in the plan, and jumps go from top to pod to leaf |
| SynthWellFormed.CompiledPlanNeverMalformed | crates/netpol/src/synth.rs:337-604 | so no packet ever meets an undefined chain or set |
| LiveSets.PolicySetsLive | crates/netpol/src/synth.rs:144-161 | in whatever order and however often sets are pushed, each holds at the end what its policy means by the name |
| LiveSets.LocalSetLive | crates/netpol/src/synth.rs:558-565 | the local-pods set holds exactly the programmed addresses |
| LiveSets.SetsFaithfulIff | crates/netpol/src/controller.rs:109-113 | the live sets hold every pushed set iff no name is pushed with two contents |
| LiveSets.LiveSetsFaithfulIff | crates/netpol/src/synth.rs:201-257 | after every set of the compiled plan was pushed, the live sets hold each of them iff, in every governed rule that emits anything, two named ports have the same addresses at every group number both reach |
| LiveSets.SinglePortsAgree | crates/netpol/src/synth.rs:201-257 | rules with at most one distinct named port meet that condition |
| NamedPortClash.NamedPortsMisjudge | crates/netpol/src/synth.rs:233-257 | a concrete world of two pods under a policy with two named ports: an allowed packet to one is rejected, a denied packet to the other is let through |
| ChainMeaning.PolicyChainMarks | crates/netpol/src/synth.rs:286-299 | for any world with unique names, a policy chain leaves the match mark set iff the policy's compiled rules admit the packet against the live sets, and ends no traversal |
| ChainMeaning.LivePermitsMeans | crates/netpol/src/synth.rs:104-299 | where named ports agree, that is what the policy's rules permit |
| PolicyMeaning.PolicyEval | crates/netpol/src/synth.rs:104-299 | against sets that hold what the policy pushed, the match lists it emits admit a packet iff some rule of a governed direction permits it |
| ChainMeaning.RunPodChain | crates/netpol/src/synth.rs:475-531 | a pod chain rejects exactly the packets it receives unmarked and undecided that no jump marks, and leaves the others with the match mark cleared and the accept mark set |
| TopMeaning.RunTail | crates/netpol/src/synth.rs:556-597 | the tail rejects endpoints in a pod range that are not programmed, accepts accepted packets, rejects the rest of the range |
| TopMeaning.TopExact | crates/netpol/src/synth.rs:533-602 | the verdict of FORWARD and OUTPUT in closed form: rejected iff a programmed pod at one end stops the packet, and otherwise what the tail says |
| Isolation.NoOverBlocking | crates/netpol/src/synth.rs:458-554 | if every local endpoint's policies allow the packet, no chain rejects it, both-direction policies and two local pods included |
| Isolation.RejectsExactly | crates/netpol/src/synth.rs:104-604 | the exact set of rejected packets, with the one way a denied packet is still marked spelled out |
| Isolation.MeaningPreserved | crates/netpol/src/synth.rs:104-604 | the compiled plan rejects a packet iff ingress or egress isolation of a local pod denies it |
| Isolation.NewFlowsAreScreened | crates/netpol/src/synth.rs:349-363 | a new TCP, UDP or SCTP packet not sourced on the node is never decided by the common rules |
| StatefulMeaning.CommonExact | crates/netpol/src/synth.rs:349-363 | COMMON drops what is invalid, accepts what is related or established and the ICMP kinds listed for the family, and passes everything else on |
| StatefulMeaning.PodChainStateful | crates/netpol/src/synth.rs:481-489 | a pod's chain decides those packets first, and accepts new traffic of the node itself to the pod's addresses, whatever the policies |
| StatefulMeaning.StatefulExact | crates/netpol/src/synth.rs:349-602 | FORWARD and OUTPUT with a programmed pod at one end: replies and related packets are accepted, invalid ones dropped, permitted ICMP accepted; without one, the tail decides |
| StatefulMeaning.NodeLocalAccepted | crates/netpol/src/synth.rs:484-489 | new traffic of the node itself to a programmed pod is accepted, unless a programmed pod at its source alone stops it first |
| InputMeaning.InputExact | crates/netpol/src/synth.rs:371-396 | INPUT returns traffic for a service range or a node port unmarked; otherwise it rejects iff a programmed pod at the source stops the packet, and leaves the rest to the tail |
| InputMeaning.InputStateful | crates/netpol/src/synth.rs:371-396 | after that return, INPUT is stateful as FORWARD and OUTPUT are, for packets from programmed pods |
| Isolation.StopsIffRefused | crates/netpol/src/synth.rs:458-554 | a pod chain stops a packet iff a local endpoint's policies deny it and no both-direction policy marks it from the other end |
| Isolation.DefaultDenySurvival | crates/netpol/src/synth.rs:556-602 | with default deny on and unique names only, a packet survives iff no pod chain stops it and every endpoint in a pod range is programmed; surviving inside a range, some pod chain accepted it |
| Isolation.ProgrammedIff | crates/netpol/src/synth.rs:456-480 | a pod gets a chain iff it is of this node, not host-network, has an address of the family, and some policy isolates it in either direction |
| Isolation.DefaultDenyExact | crates/netpol/src/synth.rs:556-602 | with default deny on, a packet survives iff no local endpoint's policies refuse it and every endpoint in a pod range is an isolated pod of this node; surviving inside a range, it is accepted at such a pod |
| Isolation.BothDirectionPolicyLeaks | crates/netpol/src/synth.rs:491-503 | a concrete denied packet the plan does not reject, through a policy governing both directions |
| IpsetPayload.BuildRestorePayload | crates/netpol/src/ipset.rs:37-56 | the loop emits creation, flush, one addition an entry, swap and destruction, in that order |
| IpsetPayload.ReplacementIsAtomic | crates/netpol/src/ipset.rs:37-56 | after any prefix of the payload, refused commands included, the live set has its old contents or exactly the new ones, and no other set moved |
| IpsetPayload.ReplacementIsExact | crates/netpol/src/ipset.rs:37-56 | the whole payload succeeds iff nothing of another type is in the way and every entry can be stored, and then leaves the new contents, no temporary set, and the rest as it was |
| FirewallController.Node.Restore | crates/netpol/src/ipset.rs:84-113 | commands run in order up to the first refusal |
| FirewallController.Node.RestoreFilter | crates/netpol/src/iptables.rs:73-99 | a document is loaded whole, declared chains replaced and others kept, or refused whole |
| FirewallController.Node.EnsureJump | crates/netpol/src/iptables.rs:101-122 | a builtin jump is inserted in front unless already there |
| FirewallController.LoadedRules | crates/netpol/src/iptables.rs:73-99 | after a load, declared chains hold the plan's rules and every other chain what it held |
| FirewallController.StorableIff | crates/netpol/src/translate.rs:89-102 | all sets of a compiled plan can be stored iff every governed rule's blocks of the family have a positive length and exceptions of the same family |
| FirewallController.AnywhereBlockIsRefused | crates/netpol/src/ipset.rs:37-56 | a concrete world whose policy admits 0.0.0.0/0: the block admits every IPv4 address, its set is compiled, and restoring that set fails on every kernel |
| FirewallController.RestoredSetsAdmitRules | crates/netpol/src/controller.rs:109-115 | sets first: once they are restored the rules of a well-formed plan are accepted, and sets and chains are those of the plan |
| FirewallController.Controller.RestoreSets | crates/netpol/src/controller.rs:109-113 | succeeds, when no set of another type is in the way, iff all sets can be stored; on failure every live set is still old or new and the other family is untouched |
| FirewallController.Controller.Reconcile | crates/netpol/src/controller.rs:94-121 | success puts every family's plan in force, and happens, when no set of another type is in the way, exactly on storable worlds; failing or not, each set is old or new and chains change only together with their sets |
| FirewallController.KernelRunsThePlan | crates/netpol/src/controller.rs:94-121 | after a successful pass a kernel chain traverses as the compiled plan, whatever stale chains and sets there are |
| FirewallController.KernelEnforcesPolicies | crates/netpol/src/controller.rs:94-121 | end to end: after a successful pass the kernel rejects a packet iff the policies deny it |
| FirewallController.KernelIsStateful | crates/netpol/src/controller.rs:94-121 | after a successful pass the kernel accepts what belongs to a connection of an isolated pod of the node, and drops what is invalid, whatever the policies |
| ServiceModel.BuildDesired | crates/proxy/src/sync.rs:298-410 | the nested loops build the table and address set of the listed insertions, later ones winning |
| ServiceModel.DesiredState.InsertExternal | crates/proxy/src/sync.rs:339-367 | external addresses are inserted iff valid and not taken by direct server return |
| ServiceModel.DesiredState.InsertNodePorts | crates/proxy/src/sync.rs:381-409 | node ports out of range, or local-only without local endpoints, are skipped |
| ServiceModel.ServiceTable | crates/proxy/src/sync.rs:334-409 | one service leaves an entry exactly at the keys it is exposed at, with its parameters and serving endpoints: by the internal traffic policy at keys that are ClusterIPs only, by the external one at all others |
| ServiceModel.DesiredMeaning | crates/proxy/src/sync.rs:298-410 | a virtual service is desired iff some Service is exposed there, and the entry is that of the last such Service in the snapshot: its fields, persistent iff it has session affinity, and exactly its ready endpoints at weight 1, local ones only if the policy for that kind of address is local; the wanted addresses are the exposed VIPs |
| ServiceModel.BindableIff | crates/proxy/src/validation.rs:14-27 | an external address is bound iff direct server return does not take it and, under strict validation, it lies in an allowed range and in no cluster range |
| ServiceModel.NodePortIff | crates/proxy/src/sync.rs:381-393 | a node port is opened iff it lies in the configured range and, under a local traffic policy, some ready endpoint is local |
| Ipvs.IpvsOps.DelService | crates/proxy/src/ipvs.rs:651-655 | deleting a service removes it and all its destinations |
| Ipvs.IpvsOps.AddDestination | crates/proxy/src/ipvs.rs:383-420 | adding a destination creates it; one that exists is updated under `Upsert`, left alone under `Strict` |
| Ipvs.IpvsOps.UpdateDestination | crates/proxy/src/ipvs.rs:383-420 | editing a destination updates it; a missing one is created under `Upsert`, left missing under `Strict` |
| Graceful.GracefulQueue.Enqueue | crates/proxy/src/graceful.rs:48-57 | a queued destination stays queued once, with its first deadline |
| Graceful.GracefulQueue.Requeue | crates/proxy/src/graceful.rs:66-68 | a survivor goes back with its deadline, still once |
| ServiceSync.ServiceSync.ProgramDests | crates/proxy/src/sync.rs:440-458 | a full pass writes every destination, an incremental one those that are new or changed; with equal lists it writes nothing |
| ServiceSync.ServiceSync.Program | crates/proxy/src/sync.rs:429-459 | services and destinations slot by slot after programming; nothing is written when an incremental pass finds desired equal to applied |
| ServiceSync.ServiceSync.CollectStale | crates/proxy/src/sync.rs:460-480 | exactly the destinations that lost their endpoint and the services no longer desired |
| ServiceSync.ServiceSync.RemoveDestination | crates/proxy/src/sync.rs:687-705 | drained to weight 0 and queued, or deleted, with UDP connection tracking flushed |
| ServiceSync.ServiceSync.RemoveStale | crates/proxy/src/sync.rs:482-484 | exactly the stale slots are drained or deleted, queued and flushed |
| ServiceSync.ServiceSync.DropServices | crates/proxy/src/sync.rs:485-490 | exactly the dropped services go, with their destinations |
| ServiceSync.ServiceSync.BindVips | crates/proxy/src/sync.rs:492-506 | the interface after binding, address by address, given the record of bound ones |
| ServiceSync.ServiceSync.ProcessGracefulQueue | crates/proxy/src/sync.rs:710-739 | a queued removal is carried out iff not wanted back and idle or expired, dropped if wanted back, kept otherwise |
| ServiceSync.ServiceSync.ReconcileInner | crates/proxy/src/sync.rs:425-512 | the whole pass slot by slot: kernel, queue, addresses, flushes and records; no write at all when nothing changed and nothing expired |
| ServiceSync.ServiceSync.Reconcile | crates/proxy/src/sync.rs:284-512 | the same from a snapshot of Services and endpoints |
| SyncRuns.PassKeeps | crates/proxy/src/sync.rs:295-512 | one successful pass preserves the invariant of runs |
| SyncRuns.RunsSettle | crates/proxy/src/sync.rs:295-512 | under either rule, after any run from an empty table: services equal the desired ones with their parameters, every desired destination is there, nothing else but drained ones, addresses equal the wanted VIPs |
| SyncRuns.EndsListedIff | crates/proxy/src/sync.rs:440-458 | exactly when a pass from a reachable state leaves a wanted destination as listed |
| SyncRuns.RunsConvergeIff | crates/proxy/src/sync.rs:295-512 | a run ends with every desired destination at weight 1 and as listed iff its last pass found every wanted slot in a state it can settle; under `Upsert` always |
| SyncRuns.IncrementalEndsListedIff | crates/proxy/src/sync.rs:440-458 | under `Strict`, in step with the kernel, an incremental pass leaves a wanted destination as listed iff it is not a drained one that was unwanted |
| SyncRuns.FullEndsListedIff | crates/proxy/src/sync.rs:440-445 | a full pass, iff moreover its parameters did not change |
| SyncRuns.WeightSticks | crates/proxy/src/sync.rs:452-453 | under `Strict`, passes of either kind leave a destination that stays wanted unchanged at whatever the kernel has |
| SyncRuns.StuckWhileWanted | crates/proxy/src/sync.rs:452-453 | so in any run a destination wanted back while it drains stays at weight 0 for as long as it is wanted unchanged |
| SyncRuns.WantedBackStaysDrained | crates/proxy/src/sync.rs:452-453 | a concrete three-pass run of the shipped behaviour that ends with its one wanted backend at weight 0 and nothing queued |
| SyncRuns.UngracefulRunsLeaveNothing | crates/proxy/src/sync.rs:687-705 | without graceful termination no other destination is left |
| SyncRuns.DrainInvariant | crates/proxy/src/sync.rs:710-739 | after every pass of a run, unwanted destinations have weight 0 and are queued, nothing queued is wanted, idle, or past its deadline |
| SyncRuns.DrainsUntilIdle | crates/proxy/src/sync.rs:710-739 | in any run with graceful termination, a destination that lost its endpoint while its service stays is kept, at weight 0 and queued, iff its connection counts are not known to be zero and its deadline, first set one period after the drain, lies ahead; otherwise it is in neither kernel nor queue |
| SyncRuns.UdpFlushedIff | crates/proxy/src/sync.rs:482-490 | connection tracking is flushed for exactly the UDP services that were dropped or lost a destination |
| SyncRuns.DeadlineIsFromDrain | crates/proxy/src/graceful.rs:48-68 | a queued deadline is one grace period after the drain that queued it, unwanted ever since |
| SyncRuns.GracePeriodHonoured | crates/proxy/src/sync.rs:710-739 | a destination leaves the kernel only if its service is gone, it had no connections at all, or a grace period passed since a drain after which no pass wanted it |
| SyncRuns.IncrementalRefinesFullIff | crates/proxy/src/sync.rs:429-459 | where the kernel has what was applied, both kinds of pass end with the same services, queue, addresses and flushes, and in the same state iff the table upserts or every destination whose parameters changed has the new ones already |
| SyncRuns.IncrementalRefinesFullInRuns | crates/proxy/src/sync.rs:429-459 | the same in every reachable state |
| SyncRuns.FullPassHealsIff | crates/proxy/src/sync.rs:281-286 | from any kernel table whatever, a full pass leaves every desired destination present, and as listed iff the table upserts, it was missing, or it was so already |
| SyncRuns.FullPassHealsServiceIff | crates/proxy/src/sync.rs:429-439 | and a desired service with its parameters iff the table upserts, it was so already, or it was there exactly when the pass edits rather than adds |
| SyncRuns.IncrementalHealsIff | crates/proxy/src/sync.rs:440-458 | an incremental pass restores a lost destination iff its desired state changed, and under `Strict` iff it was not wanted before |
| SyncRuns.LostAddressRestoredIff | crates/proxy/src/sync.rs:492-506 | a lost address is put back iff it was not recorded as bound |
| FwMark.KeyRoundTripIff | crates/proxy/src/dsr.rs:129-136 | a service key reads back as its service iff the address text has no dash |
| FwMark.KeysInjective | crates/proxy/src/dsr.rs:83-85 | different services never share a key |
| FwMark.KeyText | crates/proxy/src/dsr.rs:83-85 | keys as they are written, for each protocol |
| FwMark.FwMarkRegistry.Assign | crates/proxy/src/dsr.rs:101-120 | takes the first probe not held by another service; fails iff all 16380 are, and then changes nothing |
| FwMark.FwMarkRegistry.LookupByService | crates/proxy/src/dsr.rs:123-126 | the search finds the mark that holds the service, iff there is one |
| FwMark.InsertPlaced | crates/proxy/src/dsr.rs:101-120 | every entry's earlier probes stay held by other services |
| FwMark.OneMarkEach | crates/proxy/src/dsr.rs:101-120 | no service holds two marks |
| FwMark.LookupsInverse | crates/proxy/src/dsr.rs:123-137 | for an address text without a dash, lookup by service returns a mark iff lookup by that mark returns the service |
| FwMark.MarksAreStableAndUnique | crates/proxy/src/dsr.rs:101-120 | over any run of assignments a service always gets the same mark back, and two services never get the same one |
| Tlv.EncodeNla | crates/proxy/src/genetlink.rs:93-103 | header, payload and padding to 4 bytes, the length field wrapping at 16 bits |
| Tlv.NlaBytes | crates/proxy/src/genetlink.rs:93-103 | byte by byte: length with header, kind, payload, zeros up to a multiple of 4 |
| Tlv.WalkEncode | crates/proxy/src/genetlink.rs:93-103 | walking a concatenation of encodings returns the attributes in order, for payloads up to 65531 bytes |
| Tlv.WalkOneIff | crates/proxy/src/genetlink.rs:93-103 | 65531 is the exact limit |
| Tlv.ResolveFamily | crates/proxy/src/genetlink.rs:303-319 | on arbitrary bytes the scan stays in bounds, ends, and returns the first family id of the walk |
| Genetlink.ServiceAttr | crates/proxy/src/genetlink.rs:118-149 | the bytes built step by step are the encoding of the service's attribute list |
| Genetlink.ServiceIdentityAttr | crates/proxy/src/genetlink.rs:155-166 | likewise for the identity of a service |
| Genetlink.DestAttr | crates/proxy/src/genetlink.rs:198-209 | likewise for a destination |
| Genetlink.DestinationMessage | crates/proxy/src/genetlink.rs:350-354 | likewise for a whole destination command |
| Genetlink.ServiceRoundTrip | crates/proxy/src/genetlink.rs:118-149 | an encoded service reads back as itself: address, port, scheduler, flags, persistence |
| Genetlink.IdentityRoundTrip | crates/proxy/src/genetlink.rs:155-166 | an encoded identity names the same service |
| Genetlink.DestRoundTrip | crates/proxy/src/genetlink.rs:198-209 | an encoded destination reads back as itself, negative weights included |
| Genetlink.DestinationMessageRoundTrip | crates/proxy/src/genetlink.rs:350-360 | a destination command names its service and its destination |
| Genetlink.ServiceOnTheWire | crates/proxy/src/genetlink.rs:29-149 | a service message is one attribute of kind 1 holding kinds 1, 2, 3, 4, 6, 7, 8, 9 in order, with the values of each in bytes |
| Genetlink.IdentityOnTheWire | crates/proxy/src/genetlink.rs:155-166 | an identity holds kinds 1, 2, 3, 4 and 9 |
| Genetlink.DestOnTheWire | crates/proxy/src/genetlink.rs:198-209 | a destination is one attribute of kind 2 holding kinds 1 to 6 and 11, with the values of each in bytes |
| Lease.AttemptProceedsIff | crates/lballoc/src/election.rs:32-38 | an attempt goes on exactly when the pure rule lets the identity acquire |
| Lease.FreshIff | crates/kube-router-rs/src/lballoc_wire.rs:156-172 | a lease keeps others out iff it has another holder, a renewal, and fewer whole seconds passed since than it lasts, 15 by default |
| Lease.ExpiredIsOverFourteen | crates/kube-router-rs/src/lballoc_wire.rs:165-171 | by whole seconds, an expired lease is more than 14 s old |
| Lease.KubeLease.AcquireOrRenew | crates/kube-router-rs/src/lballoc_wire.rs:152-206 | leads iff nobody fresh holds the fetched lease and the server's object is still the fetched one; only then does the object change |
| Lease.LeaderElector.Tick | crates/lballoc/src/election.rs:63-71 | leadership follows the attempt, errors count as not leading, transitions are reported exactly |
| Election.AcceptKeeps | crates/kube-router-rs/src/lballoc_wire.rs:177-205 | an accepted write, however late, keeps the invariant |
| Election.TermsApart | crates/kube-router-rs/src/lballoc_wire.rs:152-206 | over a whole run, renewals accepted from different nodes are recorded more than 14 s apart |
| Election.NoTwoLeaders | crates/kube-router-rs/src/lballoc_wire.rs:152-206 | in every interleaving, no two nodes both lead within 14 s of their own renewals |
| Election.TwoLeadersJustBeyond | crates/kube-router-rs/src/lballoc_wire.rs:165-171 | one microsecond beyond, a run with two leaders |
| Election.SafetyBoundExact | crates/lballoc/src/election.rs:11 | 14 s is the exact bound, not the 15 s of the lease |
| Pools.Bump | crates/lballoc/src/pools.rs:21-28 | the in-place octet loop is addition of one with carry |
| Pools.BumpedIsNext | crates/lballoc/src/pools.rs:21-28 | which is the next number, wrapping at the end of the address space |
| Pools.IncIp | crates/lballoc/src/pools.rs:20-41 | the next address of the family |
| Pools.IpRanges.Inc | crates/lballoc/src/pools.rs:71-87 | one cursor step, into the next range or around |
| Pools.IpRanges.NextFreeIp | crates/lballoc/src/pools.rs:91-104 | ends for all ranges of one family, on the first address in cursor order that is not allocated, or back at the start |
| Pools.Reaches | crates/lballoc/src/pools.rs:71-87 | the cursor reaches every pool address from anywhere, the whole address space as a range included |
| Pools.FoundIsFree | crates/lballoc/src/pools.rs:91-104 | an address found lies in some range and is not allocated |
| Pools.SeenIsVisited | crates/lballoc/src/pools.rs:71-104 | the addresses a search looks at before it is back at its first one are those of an interval description of the ranges: the rest of the cursor's range, then the ranges up to the next one holding that address |
| Pools.ExhaustionRightIff | crates/lballoc/src/pools.rs:89-104 | for given ranges and cursor, a search that finds nothing is right, whatever is allocated, iff those addresses cover the pool |
| Pools.ExhaustedIff | crates/lballoc/src/pools.rs:89-104 | then none is found iff every pool address is allocated |
| Pools.UnsharedSeesPool | crates/lballoc/src/pools.rs:99-102 | a cursor address that lies in one range only is enough |
| Pools.RepeatedRangeIsRight | crates/lballoc/src/pools.rs:99-102 | and not needed: a range listed twice |
| Pools.VisitedOnce | crates/lballoc/src/pools.rs:91-104 | over disjoint ranges a search looks at no address twice |
| Pools.OverlapHidesFreeAddress | crates/lballoc/src/pools.rs:99-102 | with overlapping ranges exhaustion can be reported while an address is free |
| Allocate.PlanAllocation | crates/lballoc/src/allocate.rs:69-122 | which pools are searched, and the plan or error each outcome gives: a non-empty dual-stack plan has both families |
| Allocate.DualServedIff | crates/lballoc/src/allocate.rs:117-121 | a dual-stack service is served iff it starts with neither family and both searches succeed; holding one, it always errs |
| Allocator.AllocatedIps | crates/lballoc/src/controller.rs:38-55 | exactly the pool addresses of each family that some service holds |
| Allocator.LbAllocator.Serve | crates/lballoc/src/controller.rs:91-115 | one service: nothing, or one update that keeps the pass sound |
| Allocator.LbAllocator.Reconcile | crates/lballoc/src/controller.rs:87-121 | failing or not, addresses handed out are pairwise distinct, of their family's pool, and among no service's external or ingress addresses; every update goes to a LoadBalancer service of class kube-router, or as cluster default of class default or none, with families it misses; on success, over disjoint ranges, every such service got each family it misses unless that pool is drained, or it needs both families and the other is held already or drained |
| Routes.Netlink.RouteReplace | crates/netlink-sys/src/lib.rs:125-130 | one route for each destination and table |
| Inject.IsRejectedIff | crates/routing/src/inject.rs:72-76 | a prefix is rejected iff some reject prefix covers all its addresses |
| Inject.RouteInjector.OnEvent | crates/routing/src/inject.rs:89-113 | the kernel stays in step with the state map, other tables untouched |
| Inject.RouteInjector.Sync | crates/routing/src/inject.rs:116-121 | every route of the map is installed again from any kernel table; in step, nothing changes |
| Inject.ReplayIsLastWord | crates/routing/src/inject.rs:89-113 | after any events a prefix is installed iff the last event about it is a path and no reject prefix covers it, through that event's next hop, tunnelled always in full overlay and in subnet overlay exactly if the next hop lies in no local subnet |
| Inject.ProcessEvents | crates/routing/src/inject.rs:89-113 | after any event stream on an empty table, the kernel holds exactly the replayed map |
| PodNet.DesiredPodRoutes | crates/routing/src/podnet.rs:40-55 | the nested loops list the routes of the specification |
| PodNet.PodRoutesMembers | crates/routing/src/podnet.rs:40-55 | a route is desired iff it leads to another node's pod CIDR through that node |
| PodNet.PodNetController.Reconcile | crates/routing/src/podnet.rs:84-106 | the kernel after the replacements and then the deletions, destination by destination |
| PodNet.DesiredRouteIff | crates/routing/src/podnet.rs:84-106 | the exact fate of a desired route: lost if its destination changed gateway |
| PodNet.PassConvergesIff | crates/routing/src/podnet.rs:84-106 | a pass converges iff no destination changed gateway |
| PodNet.LostRouteStaysLost | crates/routing/src/podnet.rs:84-106 | a route lost that way is not restored by later passes |
| PodNet.SteadyRunsConverge | crates/routing/src/podnet.rs:84-106 | while gateways are steady, the kernel holds exactly the desired routes after every pass of a run |
| PodNet.MovedNodeLosesRoute | crates/routing/src/podnet.rs:99-104 | a concrete node that changes address loses its route for good |
| Peers.DeriveIbgpPeers | crates/routing/src/peers.rs:44-95 | the loop with its flags derives the peers of the specification |
| Peers.DerivedMembers | crates/routing/src/peers.rs:44-95 | a peer is derived iff some other node should be peered with, with its reflection attributes |
| Peers.DerivedByRole | crates/routing/src/peers.rs:44-95 | a server has every other-named node, a pure client exactly the servers, a plain node every other-named node in a full mesh and otherwise those of its own AS; each with its own address and AS, and reflection attributes exactly for a server's non-server neighbours |
| Peers.SessionsMutualIff | crates/routing/src/peers.rs:68-82 | two nodes agree on having a session, except exactly in two mixed topologies |
| Peers.ClientsMeetAtServer | crates/routing/src/peers.rs:68-82 | reflection clients have no session with each other and one, both ways, with every server |
| Peers.NetworkRoutesController.ApplyExternalPeers | crates/routing/src/controller.rs:93-102 | external peers are added once |
| Peers.NetworkRoutesController.ReconcileAndApply | crates/routing/src/controller.rs:111-137 | the engine after the additions and then the removals, neighbour by neighbour |
| Peers.DistinctNodesDistinctPeers | crates/routing/src/peers.rs:44-95 | distinct node addresses give distinct neighbours |
| Peers.PassConverges | crates/routing/src/peers.rs:102-114 | one pass takes the engine to the desired peers, changed attributes included, external peers untouched |
| Peers.RunsConverge | crates/routing/src/controller.rs:126-137 | after every pass of a run the engine's neighbours are the derived peers and the external ones |
| Peers.RunsFollowNodes | crates/routing/src/controller.rs:104-137 | stated on the node lists each pass was given: the neighbours are those derived from the last one |

## Left out

- Process execution, netlink sockets, gRPC, CRI, HTTP, command lines and logging: only the contracts they implement are kept.
- Rule text, SHA-256 names and FNV mixing: datatypes, injective names and an arbitrary 14-bit hash stand for them.
- The projections from Kubernetes objects (`netpol_wire`, `proxy_wire`, `routing_wire`, `map_lb_service`) and the append to a Service's status: thin copies of fields; the allocation pass takes the API server's answers as parameters.
- Timers and asynchronous scheduling: passes, ticks and election steps happen in any order the theorems quantify over.
- Passes of the service, peer and route reconcilers that fail midway: their records are updated before or after the calls, so convergence is not claimed.
- Marks a packet brings along: verdicts are for packets whose match mark is not set when they enter a top-level chain, and the interleaving of KUBE-ROUTER-INPUT with translation is not modelled beyond its own verdict.
- Direct server return beyond the choice of addresses and the FWMARK registry: the fwmark services, mangle rules and in-pod tunnels.
- Hairpin, masquerade, TCPMSS, metrics, health checks, the service firewall, `sloppy_tcp`, cleanup and CNI: they would add easy members only.
- `FwMarkRegistry::remove`: it opens a hole in a probe chain, and only a test calls it; the registry invariant is for runs of assignments.
- Pools.ExhaustedIff: not where the addresses seen before the first return miss part of the pool, where it is false for some allocation (`Pools.ExhaustionRightIff`, and concretely `Pools.OverlapHidesFreeAddress`).
- Isolation.MeaningPreserved: not for packets between two pods one both-direction policy selects, where it is false (`Isolation.BothDirectionPolicyLeaks`) and `Isolation.RejectsExactly` covers them; nor, like `RejectsExactly`, where named ports of one rule disagree, where verdicts can be wrong both ways (`NamedPortClash.NamedPortsMisjudge`) and `TopMeaning.TopExact` is the formula.
- Destinations of a virtual service the kernel has lost: a real table refuses to add them, which fails the pass; the model's tables hold them.
- Liveness of a dual-stack service that already holds one family: `Allocate.DualServedIff` proves it is never served.
- A stale service snapshot: an allocation pass is judged against the snapshot it was given, so two leaders' passes are kept apart only by the lease.
- Deletion of the Lease object by others during a run, and writers that do not follow the protocol.
- IPv6 scopes, and prefixes or routes with equal networks but different host bits, which are different keys here as in the program.
