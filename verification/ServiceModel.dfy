// Services and endpoints, and the IPVS table a snapshot of them asks for.

module ServiceModel {
  import opened Wrappers
  import opened Net

  datatype Protocol = Tcp | Udp | Sctp

  datatype Scheduler = Rr | Lc | Sh | Dh | Mh

  datatype SchedFlags = SchedFlags(flag1: bool, flag2: bool, flag3: bool)

  datatype ServiceInfo = ServiceInfo(
    protocol: Protocol,
    port: nat,
    nodePort: Option<nat>,
    clusterIps: seq<IpAddr>,
    externalIps: seq<IpAddr>,
    loadBalancerIps: seq<IpAddr>,
    scheduler: Scheduler,
    schedFlags: SchedFlags,
    sessionAffinity: bool,
    affinityTimeout: nat,
    dsr: bool,
    internalTrafficLocal: bool,
    externalTrafficLocal: bool)

  datatype EndpointInfo = EndpointInfo(ip: IpAddr, port: nat, isLocal: bool, ready: bool)

  /** One service of a snapshot with its endpoints. */
  datatype Backed = Backed(info: ServiceInfo, endpoints: seq<EndpointInfo>)

  datatype Key = Key(addr: IpAddr, protocol: Protocol, port: nat)

  datatype IpvsService = IpvsService(
    addr: IpAddr, protocol: Protocol, port: nat, scheduler: Scheduler, schedFlags: SchedFlags, persistent: Option<nat>)
  {
    function KeyOf(): Key {
      Key(addr, protocol, port)
    }
  }

  datatype IpvsDestination = IpvsDestination(addr: IpAddr, port: nat, weight: int, tunnel: bool)

  datatype Entry = Entry(svc: IpvsService, dests: seq<IpvsDestination>)

  /** `BTreeMap<String, (IpvsService, Vec<IpvsDestination>)>`. */
  type Table = map<Key, Entry>

  datatype ValidationRanges = ValidationRanges(external: seq<IpNet>, loadBalancer: seq<IpNet>, cluster: seq<IpNet>, strict: bool)

  datatype ProxyConfig = ProxyConfig(ranges: ValidationRanges, dsrEnabled: bool, nodePortRange: Option<(nat, nat)>, nodeIps: seq<IpAddr>)

  predicate InSome(nets: seq<IpNet>, ip: IpAddr) {
    exists n | n in nets :: Contains(n, ip)
  }

  /** `validate_external_ip`. */
  predicate ValidateExternalIp(ip: IpAddr, allowedNets: seq<IpNet>, cluster: seq<IpNet>, strict: bool) {
    !strict || (!InSome(cluster, ip) && InSome(allowedNets, ip))
  }

  // ---- what one service asks for --------------------------------------------------------------

  /** The virtual service at an address and port. */
  function Virtual(info: ServiceInfo, addr: IpAddr, port: nat): IpvsService {
    IpvsService(addr, info.protocol, port, info.scheduler, info.schedFlags,
                if info.sessionAffinity then Some(info.affinityTimeout) else None)
  }

  predicate Serves(e: EndpointInfo, localOnly: bool) {
    e.ready && (!localOnly || e.isLocal)
  }

  /** The serving endpoints, as destinations of weight 1. */
  function Backends(eps: seq<EndpointInfo>, tunnel: bool, localOnly: bool): (ds: seq<IpvsDestination>)
    ensures forall d :: d in ds <==> exists e :: e in eps && Serves(e, localOnly) && d == IpvsDestination(e.ip, e.port, 1, tunnel)
  {
    if eps == [] then [] else
      var rest, e := Backends(eps[..|eps|-1], tunnel, localOnly), eps[|eps|-1];
      assert eps == eps[..|eps|-1] + [e];
      if Serves(e, localOnly) then rest + [IpvsDestination(e.ip, e.port, 1, tunnel)] else rest
  }

  /** One insertion into the desired table; `vip` says whether the address goes on the dummy interface. */
  datatype Listing = Listing(entry: Entry, vip: bool) {
    function KeyOf(): Key {
      entry.svc.KeyOf()
    }
  }

  function ListingAt(b: Backed, addr: IpAddr, port: nat, localOnly: bool, vip: bool): Listing {
    Listing(Entry(Virtual(b.info, addr, port), Backends(b.endpoints, b.info.dsr, localOnly)), vip)
  }

  function VipListings(b: Backed, vips: seq<IpAddr>, localOnly: bool): (ls: seq<Listing>)
    ensures |ls| == |vips| && forall i :: 0 <= i < |vips| ==> ls[i] == ListingAt(b, vips[i], b.info.port, localOnly, true)
  {
    seq(|vips|, i requires 0 <= i < |vips| => ListingAt(b, vips[i], b.info.port, localOnly, true))
  }

  /** External addresses that may be bound, unless direct server return takes them. */
  function Bindable(b: Backed, cfg: ProxyConfig, vips: seq<IpAddr>, allowedNets: seq<IpNet>): (r: seq<IpAddr>)
    ensures forall a :: a in r <==> a in vips && ValidateExternalIp(a, allowedNets, cfg.ranges.cluster, cfg.ranges.strict)
                                    && !(cfg.dsrEnabled && b.info.dsr)
  {
    if vips == [] then [] else
      var rest, a := Bindable(b, cfg, vips[..|vips|-1], allowedNets), vips[|vips|-1];
      assert vips == vips[..|vips|-1] + [a];
      if ValidateExternalIp(a, allowedNets, cfg.ranges.cluster, cfg.ranges.strict) && !(cfg.dsrEnabled && b.info.dsr)
      then rest + [a] else rest
  }

  /** The node port is in range, and not left without backends by a local traffic policy. */
  predicate NodePortOpen(b: Backed, cfg: ProxyConfig) {
    && b.info.nodePort.Some?
    && (cfg.nodePortRange.Some? ==> cfg.nodePortRange.value.0 <= b.info.nodePort.value <= cfg.nodePortRange.value.1)
    && !(b.info.externalTrafficLocal && Backends(b.endpoints, b.info.dsr, true) == [])
  }

  function NodePortListings(b: Backed, addrs: seq<IpAddr>): (ls: seq<Listing>)
    requires b.info.nodePort.Some?
    ensures |ls| == |addrs|
    ensures forall i :: 0 <= i < |addrs| ==> ls[i] == ListingAt(b, addrs[i], b.info.nodePort.value, b.info.externalTrafficLocal, false)
  {
    seq(|addrs|, i requires 0 <= i < |addrs| => ListingAt(b, addrs[i], b.info.nodePort.value, b.info.externalTrafficLocal, false))
  }

  /** Everything one service inserts, in order. */
  function Listings(b: Backed, cfg: ProxyConfig): seq<Listing> {
    VipListings(b, b.info.clusterIps, b.info.internalTrafficLocal)
    + VipListings(b, Bindable(b, cfg, b.info.externalIps, cfg.ranges.external), b.info.externalTrafficLocal)
    + VipListings(b, Bindable(b, cfg, b.info.loadBalancerIps, cfg.ranges.loadBalancer), b.info.externalTrafficLocal)
    + if NodePortOpen(b, cfg) then NodePortListings(b, cfg.nodeIps) else []
  }

  function AllListings(services: seq<Backed>, cfg: ProxyConfig): seq<Listing> {
    if services == [] then [] else AllListings(services[..|services|-1], cfg) + Listings(services[|services|-1], cfg)
  }

  /** Later insertions win. */
  function TableOf(ls: seq<Listing>): Table {
    if ls == [] then map[] else TableOf(ls[..|ls|-1])[ls[|ls|-1].KeyOf() := ls[|ls|-1].entry]
  }

  function VipsOf(ls: seq<Listing>): (vips: set<IpAddr>)
    ensures forall a :: a in vips <==> exists l :: l in ls && l.vip && l.entry.svc.addr == a
  {
    set l | l in ls && l.vip :: l.entry.svc.addr
  }

  // ---- building the desired state ---------------------------------------------------------------

  class DesiredState {
    var desired: Table
    var wantVips: set<IpAddr>
    ghost var listed: seq<Listing>

    ghost predicate Valid()
      reads this
    {
      desired == TableOf(listed) && wantVips == VipsOf(listed)
    }

    constructor ()
      ensures Valid() && listed == []
    {
      desired, wantVips, listed := map[], {}, [];
    }

    method Insert(l: Listing)
      requires Valid()
      modifies this
      ensures Valid() && listed == old(listed) + [l]
    {
      desired := desired[l.KeyOf() := l.entry];
      if l.vip {
        wantVips := wantVips + {l.entry.svc.addr};
      }
      listed := listed + [l];
    }

    /** The loop over ClusterIPs. */
    method InsertVips(b: Backed, vips: seq<IpAddr>, localOnly: bool)
      requires Valid()
      modifies this
      ensures Valid() && listed == old(listed) + VipListings(b, vips, localOnly)
    {
      for i := 0 to |vips|
        invariant Valid() && listed == old(listed) + VipListings(b, vips, localOnly)[..i]
      {
        Insert(ListingAt(b, vips[i], b.info.port, localOnly, true));
      }
    }

    /** The loops over external and load-balancer addresses. */
    method InsertExternal(b: Backed, cfg: ProxyConfig, vips: seq<IpAddr>, allowedNets: seq<IpNet>)
      requires Valid()
      modifies this
      ensures Valid() && listed == old(listed) + VipListings(b, Bindable(b, cfg, vips, allowedNets), b.info.externalTrafficLocal)
    {
      for i := 0 to |vips|
        invariant Valid()
        invariant listed == old(listed) + VipListings(b, Bindable(b, cfg, vips[..i], allowedNets), b.info.externalTrafficLocal)
      {
        assert vips[..i+1][..i] == vips[..i];
        if ValidateExternalIp(vips[i], allowedNets, cfg.ranges.cluster, cfg.ranges.strict) {
          // Direct server return takes the address instead.
          if !(cfg.dsrEnabled && b.info.dsr) {
            Insert(ListingAt(b, vips[i], b.info.port, b.info.externalTrafficLocal, true));
          }
        }
        assert listed == old(listed) + VipListings(b, Bindable(b, cfg, vips[..i+1], allowedNets), b.info.externalTrafficLocal);
      }
      assert vips[..|vips|] == vips;
    }

    method InsertNodePorts(b: Backed, cfg: ProxyConfig)
      requires Valid() && b.info.nodePort.Some?
      modifies this
      ensures Valid() && listed == old(listed) + if NodePortOpen(b, cfg) then NodePortListings(b, cfg.nodeIps) else []
    {
      var np := b.info.nodePort.value;
      if cfg.nodePortRange.Some? {
        if np < cfg.nodePortRange.value.0 || np > cfg.nodePortRange.value.1 {
          return;
        }
      }
      var localOnly := b.info.externalTrafficLocal;
      var dests := Backends(b.endpoints, b.info.dsr, localOnly);
      if !(localOnly && dests == []) {
        for i := 0 to |cfg.nodeIps|
          invariant Valid() && listed == old(listed) + NodePortListings(b, cfg.nodeIps)[..i]
        {
          Insert(ListingAt(b, cfg.nodeIps[i], np, localOnly, false));
        }
      }
    }

    method InsertService(b: Backed, cfg: ProxyConfig)
      requires Valid()
      modifies this
      ensures Valid() && listed == old(listed) + Listings(b, cfg)
    {
      hide Backends, Bindable, VipListings, NodePortListings, NodePortOpen, TableOf, VipsOf;
      ghost var before := listed;
      InsertVips(b, b.info.clusterIps, b.info.internalTrafficLocal);
      InsertExternal(b, cfg, b.info.externalIps, cfg.ranges.external);
      InsertExternal(b, cfg, b.info.loadBalancerIps, cfg.ranges.loadBalancer);
      if b.info.nodePort.Some? {
        InsertNodePorts(b, cfg);
      } else {
        NoNodePort(b, cfg);
      }
      assert listed == before + Listings(b, cfg);
    }
  }

  lemma {:induction false} NoNodePort(b: Backed, cfg: ProxyConfig)
    requires b.info.nodePort.None?
    ensures !NodePortOpen(b, cfg)
  {
  }

  /** The first half of `reconcile_inner`: the table and addresses a snapshot asks for. */
  method BuildDesired(services: seq<Backed>, cfg: ProxyConfig) returns (desired: Table, wantVips: set<IpAddr>)
    ensures desired == TableOf(AllListings(services, cfg))
    ensures wantVips == VipsOf(AllListings(services, cfg))
  {
    var state := new DesiredState();
    for i := 0 to |services|
      invariant fresh(state) && state.Valid() && state.listed == AllListings(services[..i], cfg)
    {
      assert services[..i+1][..i] == services[..i];
      state.InsertService(services[i], cfg);
    }
    assert services[..|services|] == services;
    return state.desired, state.wantVips;
  }

  // ---- what the desired state means -----------------------------------------------------------

  /** An external address may be bound: always, unless validation is strict; then it must lie in an allowed
      range and in no cluster range. */
  ghost predicate MayBind(cfg: ProxyConfig, allowedNets: seq<IpNet>, a: IpAddr) {
    cfg.ranges.strict ==>
      (exists n :: n in allowedNets && Contains(n, a)) && forall n :: n in cfg.ranges.cluster ==> !Contains(n, a)
  }

  /** An external or load-balancer address of the service that is bound, direct server return not taking it. */
  ghost predicate ExposesExternally(b: Backed, cfg: ProxyConfig, a: IpAddr) {
    && !(cfg.dsrEnabled && b.info.dsr)
    && (|| (a in b.info.externalIps && MayBind(cfg, cfg.ranges.external, a))
        || (a in b.info.loadBalancerIps && MayBind(cfg, cfg.ranges.loadBalancer, a)))
  }

  /** The service is reachable at this address, on its own port. */
  ghost predicate ExposesVip(b: Backed, cfg: ProxyConfig, a: IpAddr) {
    a in b.info.clusterIps || ExposesExternally(b, cfg, a)
  }

  /** A node port in the configured range, on an address of the node; with a local external traffic policy only
      if some ready endpoint is local. */
  ghost predicate ExposesNodePort(b: Backed, cfg: ProxyConfig, a: IpAddr, port: nat) {
    && b.info.nodePort == Some(port) && a in cfg.nodeIps
    && (cfg.nodePortRange != None ==> cfg.nodePortRange.value.0 <= port <= cfg.nodePortRange.value.1)
    && (b.info.externalTrafficLocal ==> exists e :: e in b.endpoints && e.ready && e.isLocal)
  }

  ghost predicate Exposes(b: Backed, cfg: ProxyConfig, k: Key) {
    && k.protocol == b.info.protocol
    && ((k.port == b.info.port && ExposesVip(b, cfg, k.addr)) || ExposesNodePort(b, cfg, k.addr, k.port))
  }

  /** The key is exposed by something other than a ClusterIP: an external or load-balancer address, or a node port. */
  ghost predicate ExposesOutside(b: Backed, cfg: ProxyConfig, k: Key) {
    && k.protocol == b.info.protocol
    && ((k.port == b.info.port && ExposesExternally(b, cfg, k.addr)) || ExposesNodePort(b, cfg, k.addr, k.port))
  }

  /** The loops' tests, in these terms. */
  lemma {:induction false} BindableIff(b: Backed, cfg: ProxyConfig, a: IpAddr)
    ensures ExposesExternally(b, cfg, a) <==>
            a in Bindable(b, cfg, b.info.externalIps, cfg.ranges.external) || a in Bindable(b, cfg, b.info.loadBalancerIps, cfg.ranges.loadBalancer)
  {
    hide Contains, Bindable;
  }

  lemma {:induction false} NodePortIff(b: Backed, cfg: ProxyConfig, a: IpAddr, port: nat)
    ensures ExposesNodePort(b, cfg, a, port) <==> NodePortOpen(b, cfg) && b.info.nodePort.value == port && a in cfg.nodeIps
  {
    hide Backends;
    var local := Backends(b.endpoints, b.info.dsr, true);
    assert local != [] ==> local[0] in local;
    if e :| e in b.endpoints && e.ready && e.isLocal {
      assert Serves(e, true) && IpvsDestination(e.ip, e.port, 1, b.info.dsr) in local;
    }
  }

  /** The entry of a service at a key it exposes. The internal traffic policy goes for addresses that are
      ClusterIPs and nothing else; the external one for all others, being inserted later. */
  ghost function EntryAt(b: Backed, cfg: ProxyConfig, k: Key): Entry {
    Entry(Virtual(b.info, k.addr, k.port),
          Backends(b.endpoints, b.info.dsr, if ExposesOutside(b, cfg, k) then b.info.externalTrafficLocal else b.info.internalTrafficLocal))
  }

  /** Of the services that expose a key, the last one in the snapshot. */
  ghost function LastExposing(services: seq<Backed>, cfg: ProxyConfig, k: Key): (b: Option<Backed>)
    ensures b.Some? <==> exists c :: c in services && Exposes(c, cfg, k)
    ensures b.Some? ==> b.value in services && Exposes(b.value, cfg, k)
  {
    if services == [] then None else
      var rest, last := services[..|services|-1], services[|services|-1];
      assert services == rest + [last];
      if Exposes(last, cfg, k) then Some(last) else LastExposing(rest, cfg, k)
  }

  lemma {:induction false} VipListed(b: Backed, vips: seq<IpAddr>, localOnly: bool, l: Listing)
    ensures l in VipListings(b, vips, localOnly) <==> exists a :: a in vips && l == ListingAt(b, a, b.info.port, localOnly, true)
  {
    var ls := VipListings(b, vips, localOnly);
    if l in ls {
      var i :| 0 <= i < |ls| && ls[i] == l;
      assert vips[i] in vips;
    }
    if a :| a in vips && l == ListingAt(b, a, b.info.port, localOnly, true) {
      var i :| 0 <= i < |vips| && vips[i] == a;
      assert ls[i] == l;
    }
  }

  lemma {:induction false} ListedIsExposed(b: Backed, cfg: ProxyConfig, l: Listing)
    requires l in Listings(b, cfg)
    ensures Exposes(b, cfg, l.KeyOf())
    ensures l.vip ==> ExposesVip(b, cfg, l.entry.svc.addr)
  {
    hide Backends, Bindable, VipListings, NodePortListings;
    VipListed(b, b.info.clusterIps, b.info.internalTrafficLocal, l);
    VipListed(b, Bindable(b, cfg, b.info.externalIps, cfg.ranges.external), b.info.externalTrafficLocal, l);
    VipListed(b, Bindable(b, cfg, b.info.loadBalancerIps, cfg.ranges.loadBalancer), b.info.externalTrafficLocal, l);
    BindableIff(b, cfg, l.entry.svc.addr);
    NodePortIff(b, cfg, l.entry.svc.addr, l.entry.svc.port);
    if NodePortOpen(b, cfg) && l in NodePortListings(b, cfg.nodeIps) {
      var i :| 0 <= i < |cfg.nodeIps| && NodePortListings(b, cfg.nodeIps)[i] == l;
      assert cfg.nodeIps[i] in cfg.nodeIps;
    }
  }

  lemma {:induction false} ExposedVipIsListed(b: Backed, cfg: ProxyConfig, a: IpAddr) returns (l: Listing)
    requires ExposesVip(b, cfg, a)
    ensures l in Listings(b, cfg) && l.vip && l.KeyOf() == Key(a, b.info.protocol, b.info.port)
  {
    hide Backends, Bindable, VipListings, NodePortListings, NodePortOpen;
    var external, balanced := Bindable(b, cfg, b.info.externalIps, cfg.ranges.external), Bindable(b, cfg, b.info.loadBalancerIps, cfg.ranges.loadBalancer);
    var inside := b.info.internalTrafficLocal;
    var outside := b.info.externalTrafficLocal;
    l := ListingAt(b, a, b.info.port, if a in b.info.clusterIps then inside else outside, true);
    VipListed(b, b.info.clusterIps, inside, l);
    VipListed(b, external, outside, l);
    VipListed(b, balanced, outside, l);
  }

  lemma {:induction false} AllListed(services: seq<Backed>, cfg: ProxyConfig, l: Listing)
    ensures l in AllListings(services, cfg) <==> exists b :: b in services && l in Listings(b, cfg)
  {
    hide Listings;
    if services != [] {
      var rest, last := services[..|services|-1], services[|services|-1];
      assert services == rest + [last];
      AllListed(rest, cfg, l);
    }
  }

  lemma {:induction false} TableKeys(ls: seq<Listing>, k: Key)
    ensures k in TableOf(ls) <==> exists l :: l in ls && l.KeyOf() == k
    ensures k in TableOf(ls) ==> exists l :: l in ls && l.KeyOf() == k && l.entry == TableOf(ls)[k]
  {
    if ls != [] {
      var rest, last := ls[..|ls|-1], ls[|ls|-1];
      assert ls == rest + [last];
      TableKeys(rest, k);
      if k in TableOf(rest) && last.KeyOf() != k {
        var l :| l in rest && l.KeyOf() == k && l.entry == TableOf(rest)[k];
        assert l in ls;
      }
      assert last in ls;
    }
  }

  // ---- which insertion wins -----------------------------------------------------------------------

  lemma {:induction false} TableAppend(a: seq<Listing>, b: seq<Listing>, k: Key)
    ensures k in TableOf(a + b) <==> k in TableOf(a) || k in TableOf(b)
    ensures k in TableOf(a + b) ==> TableOf(a + b)[k] == if k in TableOf(b) then TableOf(b)[k] else TableOf(a)[k]
  {
    if b == [] {
      assert a + b == a;
    } else {
      var rest, last := b[..|b|-1], b[|b|-1];
      assert (a + b)[..|a + b|-1] == a + rest && (a + b)[|a + b|-1] == last;
      TableAppend(a, rest, k);
    }
  }

  /** Insertions of one kind agree on the entry of a key. */
  lemma {:induction false} TableOne(ls: seq<Listing>, k: Key, e: Entry)
    requires forall l :: l in ls && l.KeyOf() == k ==> l.entry == e
    ensures k in TableOf(ls) ==> TableOf(ls)[k] == e
  {
    TableKeys(ls, k);
  }

  lemma {:induction false} VipTable(b: Backed, vips: seq<IpAddr>, localOnly: bool, k: Key)
    ensures k in TableOf(VipListings(b, vips, localOnly)) <==>
            k.protocol == b.info.protocol && k.port == b.info.port && k.addr in vips
    ensures k in TableOf(VipListings(b, vips, localOnly)) ==>
            TableOf(VipListings(b, vips, localOnly))[k] == Entry(Virtual(b.info, k.addr, k.port), Backends(b.endpoints, b.info.dsr, localOnly))
  {
    hide Backends, VipListings;
    var ls := VipListings(b, vips, localOnly);
    TableKeys(ls, k);
    forall l: Listing
      ensures l in ls <==> exists a :: a in vips && l == ListingAt(b, a, b.info.port, localOnly, true)
    {
      VipListed(b, vips, localOnly, l);
    }
    if k.protocol == b.info.protocol && k.port == b.info.port && k.addr in vips {
      assert ListingAt(b, k.addr, b.info.port, localOnly, true) in ls;
    }
    TableOne(ls, k, Entry(Virtual(b.info, k.addr, k.port), Backends(b.endpoints, b.info.dsr, localOnly)));
  }

  lemma {:induction false} NodePortTable(b: Backed, addrs: seq<IpAddr>, k: Key)
    requires b.info.nodePort.Some?
    ensures k in TableOf(NodePortListings(b, addrs)) <==>
            k.protocol == b.info.protocol && k.port == b.info.nodePort.value && k.addr in addrs
    ensures k in TableOf(NodePortListings(b, addrs)) ==>
            TableOf(NodePortListings(b, addrs))[k]
            == Entry(Virtual(b.info, k.addr, k.port), Backends(b.endpoints, b.info.dsr, b.info.externalTrafficLocal))
  {
    hide Backends, NodePortListings;
    var ls := NodePortListings(b, addrs);
    TableKeys(ls, k);
    forall l | l in ls
      ensures l.entry.svc.addr in addrs && l == ListingAt(b, l.entry.svc.addr, b.info.nodePort.value, b.info.externalTrafficLocal, false)
    {
      var i :| 0 <= i < |addrs| && ls[i] == l;
      assert addrs[i] in addrs;
    }
    if k.protocol == b.info.protocol && k.port == b.info.nodePort.value && k.addr in addrs {
      var i :| 0 <= i < |addrs| && addrs[i] == k.addr;
      assert ls[i] in ls && ls[i].KeyOf() == k;
    }
    TableOne(ls, k, Entry(Virtual(b.info, k.addr, k.port), Backends(b.endpoints, b.info.dsr, b.info.externalTrafficLocal)));
  }

  /** What one service leaves at a key. */
  lemma {:induction false} ServiceTable(b: Backed, cfg: ProxyConfig, k: Key)
    ensures k in TableOf(Listings(b, cfg)) <==> Exposes(b, cfg, k)
    ensures Exposes(b, cfg, k) ==> TableOf(Listings(b, cfg))[k] == EntryAt(b, cfg, k)
  {
    BindableIff(b, cfg, k.addr);
    NodePortIff(b, cfg, k.addr, k.port);
    NoNodePortUnlessOpen(b, cfg);
    hide Backends, Bindable, VipListings, NodePortListings, TableOf, NodePortOpen, ExposesExternally, ExposesNodePort;
    var external, balanced := Bindable(b, cfg, b.info.externalIps, cfg.ranges.external), Bindable(b, cfg, b.info.loadBalancerIps, cfg.ranges.loadBalancer);
    var inside, outside := b.info.internalTrafficLocal, b.info.externalTrafficLocal;
    var c, e, l := VipListings(b, b.info.clusterIps, inside), VipListings(b, external, outside), VipListings(b, balanced, outside);
    var n := if NodePortOpen(b, cfg) then NodePortListings(b, cfg.nodeIps) else [];
    VipTable(b, b.info.clusterIps, inside, k);
    VipTable(b, external, outside, k);
    VipTable(b, balanced, outside, k);
    if NodePortOpen(b, cfg) {
      NodePortTable(b, cfg.nodeIps, k);
    } else {
      EmptyTable();
    }
    TableAppend(c, e, k);
    TableAppend(c + e, l, k);
    TableAppend(c + e + l, n, k);
  }

  lemma {:induction false} EntryMeans(b: Backed, cfg: ProxyConfig, k: Key)
    requires Exposes(b, cfg, k)
    ensures EntryAt(b, cfg, k).svc == IpvsService(k.addr, b.info.protocol, k.port, b.info.scheduler, b.info.schedFlags,
                                                  if b.info.sessionAffinity then Some(b.info.affinityTimeout) else None)
    ensures forall d :: d in EntryAt(b, cfg, k).dests <==>
              exists e :: && e in b.endpoints && e.ready
                          && ((if ExposesOutside(b, cfg, k) then b.info.externalTrafficLocal else b.info.internalTrafficLocal) ==> e.isLocal)
                          && d == IpvsDestination(e.ip, e.port, 1, b.info.dsr)
  {
    hide Backends, ExposesOutside, Exposes;
  }

  lemma {:induction false} NoNodePortUnlessOpen(b: Backed, cfg: ProxyConfig)
    ensures NodePortOpen(b, cfg) ==> b.info.nodePort.Some?
  {
  }

  lemma {:induction false} EmptyTable()
    ensures TableOf([]) == map[]
  {
  }

  lemma {:induction false} AllTable(services: seq<Backed>, cfg: ProxyConfig, k: Key)
    ensures k in TableOf(AllListings(services, cfg)) <==> LastExposing(services, cfg, k).Some?
    ensures LastExposing(services, cfg, k).Some? ==>
            TableOf(AllListings(services, cfg))[k] == EntryAt(LastExposing(services, cfg, k).value, cfg, k)
  {
    hide Listings, Exposes, EntryAt, TableOf;
    if services == [] {
      EmptyTable();
    } else {
      var rest, last := services[..|services|-1], services[|services|-1];
      AllTable(rest, cfg, k);
      ServiceTable(last, cfg, k);
      TableAppend(AllListings(rest, cfg), Listings(last, cfg), k);
    }
  }

  /** The desired table has a service exactly where some Service is exposed, and the entry is that of the last
      one exposing the key: its parameters, and its ready endpoints at weight 1, only local ones if the traffic
      policy for that kind of address says so. The addresses are those of the exposed VIPs. */
  lemma {:induction false} DesiredMeaning(services: seq<Backed>, cfg: ProxyConfig, k: Key, a: IpAddr)
    ensures var desired, last := TableOf(AllListings(services, cfg)), LastExposing(services, cfg, k);
            && (k in desired <==> exists b :: b in services && Exposes(b, cfg, k))
            && (k in desired ==> last.Some? && desired[k] == EntryAt(last.value, cfg, k))
    ensures var desired, last := TableOf(AllListings(services, cfg)), LastExposing(services, cfg, k);
            k in desired ==>
              var info, local := last.value.info, (if ExposesOutside(last.value, cfg, k) then last.value.info.externalTrafficLocal
                                                   else last.value.info.internalTrafficLocal);
              && desired[k].svc == IpvsService(k.addr, info.protocol, k.port, info.scheduler, info.schedFlags,
                                               if info.sessionAffinity then Some(info.affinityTimeout) else None)
              && forall d :: d in desired[k].dests <==>
                   exists e :: e in last.value.endpoints && e.ready && (local ==> e.isLocal) && d == IpvsDestination(e.ip, e.port, 1, info.dsr)
    ensures a in VipsOf(AllListings(services, cfg)) <==> exists b :: b in services && ExposesVip(b, cfg, a)
  {
    hide Listings, Exposes, EntryAt, ExposesVip, ExposesOutside, AllListings, TableOf;
    var ls := AllListings(services, cfg);
    AllTable(services, cfg, k);
    if k in TableOf(ls) {
      EntryMeans(LastExposing(services, cfg, k).value, cfg, k);
    }
    if a in VipsOf(ls) {
      var l :| l in ls && l.vip && l.entry.svc.addr == a;
      AllListed(services, cfg, l);
      var b :| b in services && l in Listings(b, cfg);
      ListedIsExposed(b, cfg, l);
    }
    if b :| b in services && ExposesVip(b, cfg, a) {
      var l := ExposedVipIsListed(b, cfg, a);
      AllListed(services, cfg, l);
    }
  }
}
