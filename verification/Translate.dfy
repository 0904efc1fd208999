// Rule peers to ipset entries: pod selectors become addresses of a hash:ip set, ipBlocks
// become prefixes of a hash:net set with their exceptions flagged `nomatch`.

module Translate {
  import opened Wrappers
  import opened Net
  import opened PolicyModel

  datatype NetEntry = NetEntry(net: IpNet, nomatch: bool)

  datatype ResolvedPeers = ResolvedPeers(ips: set<IpAddr>, nets: seq<NetEntry>, matchAll: bool)

  function MatchedNamespaces(sel: Option<LabelSelector>, namespaces: seq<Namespace>, defaultNs: string): set<string> {
    match sel
    case None => {defaultNs}
    case Some(s) => set n | n in namespaces && SelectorMatches(s, n.labels) :: n.name
  }

  /** A pod a selector peer stands for. Host-network pods are never peers. */
  predicate PeerSelects(peer: Peer, pod: Pod, namespaces: seq<Namespace>, policyNs: string) {
    && peer.Selector?
    && pod.namespace in MatchedNamespaces(peer.namespaceSelector, namespaces, policyNs)
    && !pod.hostNetwork
    && (peer.podSelector.Some? ==> SelectorMatches(peer.podSelector.value, pod.labels))
  }

  /** The same on the fields of pod and peer: in a namespace the selector picks, or without one in the policy's
      own, with labels the pod selector picks, or without one any. */
  lemma {:induction false} PeerSelectsIff(peer: Peer, pod: Pod, namespaces: seq<Namespace>, policyNs: string)
    ensures PeerSelects(peer, pod, namespaces, policyNs) <==>
            && peer.Selector? && !pod.hostNetwork
            && (peer.namespaceSelector == None ==> pod.namespace == policyNs)
            && (peer.namespaceSelector != None ==>
                  exists n :: n in namespaces && n.name == pod.namespace && SelectorMatches(peer.namespaceSelector.value, n.labels))
            && (peer.podSelector != None ==> SelectorMatches(peer.podSelector.value, pod.labels))
  {
    hide SelectorMatches;
  }

  function PeerIps(peer: Peer, pods: seq<Pod>, namespaces: seq<Namespace>, policyNs: string, family: Family)
    : (r: set<IpAddr>)
    ensures forall a :: a in r <==>
                        exists p :: p in pods && PeerSelects(peer, p, namespaces, policyNs) && a in p.ips && a.family == family
  {
    set p, a | p in pods && a in p.ips && PeerSelects(peer, p, namespaces, policyNs) && a.family == family :: a
  }

  function IpsOfFamily(ips: seq<IpAddr>, family: Family): set<IpAddr> {
    set a | a in ips && a.family == family
  }

  lemma {:induction false} PeerIpsPush(
    peer: Peer, pods: seq<Pod>, p: Pod, namespaces: seq<Namespace>, policyNs: string, family: Family)
    ensures PeerIps(peer, pods + [p], namespaces, policyNs, family) ==
            PeerIps(peer, pods, namespaces, policyNs, family)
            + if PeerSelects(peer, p, namespaces, policyNs) then IpsOfFamily(p.ips, family) else {}
  {
    hide PeerSelects;
    assert forall q :: q in pods + [p] <==> q in pods || q == p;
  }

  function SelectorIps(peers: seq<Peer>, pods: seq<Pod>, namespaces: seq<Namespace>, policyNs: string, family: Family)
    : set<IpAddr>
  {
    if peers == [] then {} else
      SelectorIps(peers[..|peers|-1], pods, namespaces, policyNs, family)
      + PeerIps(peers[|peers|-1], pods, namespaces, policyNs, family)
  }

  function Excepts(except: seq<IpNet>): seq<NetEntry> {
    seq(|except|, i requires 0 <= i < |except| => NetEntry(except[i], true))
  }

  function PeerNets(peer: Peer, family: Family): seq<NetEntry> {
    if peer.IpBlock? && peer.cidr.addr.family == family then
      [NetEntry(peer.cidr, false)] + Excepts(peer.except)
    else []
  }

  function BlockNets(peers: seq<Peer>, family: Family): seq<NetEntry> {
    if peers == [] then [] else
      BlockNets(peers[..|peers|-1], family) + PeerNets(peers[|peers|-1], family)
  }

  function Resolve(peers: seq<Peer>, pods: seq<Pod>, namespaces: seq<Namespace>, policyNs: string, family: Family)
    : ResolvedPeers
  {
    if peers == [] then ResolvedPeers({}, [], true) else
      ResolvedPeers(SelectorIps(peers, pods, namespaces, policyNs, family), BlockNets(peers, family), false)
  }

  method ResolvePeers(peers: seq<Peer>, pods: seq<Pod>, namespaces: seq<Namespace>, policyNs: string, family: Family)
    returns (r: ResolvedPeers)
    ensures r == Resolve(peers, pods, namespaces, policyNs, family)
  {
    if |peers| == 0 {
      return ResolvedPeers({}, [], true);
    }
    var ips: set<IpAddr> := {};
    var nets: seq<NetEntry> := [];
    for i := 0 to |peers|
      invariant ips == SelectorIps(peers[..i], pods, namespaces, policyNs, family)
      invariant nets == BlockNets(peers[..i], family)
    {
      var peer := peers[i];
      assert peers[..i+1][..i] == peers[..i];
      match peer
      case Selector(_, _) =>
        var found := CollectPeerIps(peer, pods, namespaces, policyNs, family);
        ips := ips + found;
      case IpBlock(_, _) =>
        assert PeerIps(peer, pods, namespaces, policyNs, family) == {};
        var entries := CollectBlock(peer, family);
        nets := nets + entries;
    }
    assert peers[..|peers|] == peers;
    return ResolvedPeers(ips, nets, false);
  }

  /** The ipBlock arm of `resolve_peers`: the prefix first, then its exceptions. */
  method CollectBlock(peer: Peer, family: Family) returns (nets: seq<NetEntry>)
    requires peer.IpBlock?
    ensures nets == PeerNets(peer, family)
  {
    if peer.cidr.addr.family != family {
      return [];
    }
    nets := [NetEntry(peer.cidr, false)];
    for k := 0 to |peer.except|
      invariant nets == [NetEntry(peer.cidr, false)] + Excepts(peer.except[..k])
    {
      nets := nets + [NetEntry(peer.except[k], true)];
      assert Excepts(peer.except[..k+1]) == Excepts(peer.except[..k]) + [NetEntry(peer.except[k], true)];
    }
    assert peer.except[..|peer.except|] == peer.except;
  }

  /** The selector arm of `resolve_peers`: scan the pods. */
  method CollectPeerIps(peer: Peer, pods: seq<Pod>, namespaces: seq<Namespace>, policyNs: string, family: Family)
    returns (ips: set<IpAddr>)
    requires peer.Selector?
    ensures ips == PeerIps(peer, pods, namespaces, policyNs, family)
  {
    hide PeerIps, SelectorMatches, MatchedNamespaces;
    var nss := MatchedNamespaces(peer.namespaceSelector, namespaces, policyNs);
    ips := {};
    assert PeerIps(peer, [], namespaces, policyNs, family) == {};
    for j := 0 to |pods|
      invariant ips == PeerIps(peer, pods[..j], namespaces, policyNs, family)
    {
      var p := pods[j];
      assert pods[..j+1] == pods[..j] + [p];
      PeerIpsPush(peer, pods[..j], p, namespaces, policyNs, family);
      if p.namespace !in nss || p.hostNetwork {
        continue;
      }
      if peer.podSelector.Some? && !SelectorMatches(peer.podSelector.value, p.labels) {
        continue;
      }
      ghost var before := ips;
      for k := 0 to |p.ips|
        invariant ips == before + IpsOfFamily(p.ips[..k], family)
      {
        assert p.ips[..k+1] == p.ips[..k] + [p.ips[k]];
        if p.ips[k].family == family {
          ips := ips + {p.ips[k]};
        }
      }
      assert p.ips[..|p.ips|] == p.ips;
    }
    assert pods[..|pods|] == pods;
  }

  // ---- hash:net lookup ---------------------------------------------------

  /** The entry a hash:net set answers with: the longest containing prefix, the last one added on a tie. */
  function Best(entries: seq<NetEntry>, a: IpAddr): Option<NetEntry> {
    if entries == [] then None else
      var rest, last := Best(entries[..|entries|-1], a), entries[|entries|-1];
      if Contains(last.net, a) && (rest.Some? ==> rest.value.net.len <= last.net.len) then Some(last) else rest
  }

  predicate NetLookup(entries: seq<NetEntry>, a: IpAddr) {
    var best := Best(entries, a);
    best.Some? && !best.value.nomatch
  }

  lemma {:induction false} BestIsLongest(entries: seq<NetEntry>, a: IpAddr)
    ensures Best(entries, a).None? ==> forall e | e in entries :: !Contains(e.net, a)
    ensures Best(entries, a).Some? ==>
              && Best(entries, a).value in entries
              && Contains(Best(entries, a).value.net, a)
              && forall e | e in entries && Contains(e.net, a) :: e.net.len <= Best(entries, a).value.net.len
  {
    if entries != [] {
      var rest := entries[..|entries|-1];
      BestIsLongest(rest, a);
      assert entries == rest + [entries[|entries|-1]];
    }
  }

  // ---- what the peers mean -----------------------------------------------

  /** An ipBlock admits the addresses of its prefix outside every exception. */
  predicate BlockAdmits(block: Peer, a: IpAddr) {
    block.IpBlock? && Contains(block.cidr, a) && forall e | e in block.except :: !Contains(e, a)
  }

  ghost predicate BlocksAdmit(peers: seq<Peer>, a: IpAddr) {
    exists b :: b in peers && BlockAdmits(b, a)
  }

  ghost predicate SelectorsAdmit(
    peers: seq<Peer>, a: IpAddr, pods: seq<Pod>, namespaces: seq<Namespace>, policyNs: string)
  {
    exists peer, p :: peer in peers && p in pods && PeerSelects(peer, p, namespaces, policyNs) && a in p.ips
  }

  /** The meaning of a rule's peer list for one remote address. */
  ghost predicate PeersAdmit(
    peers: seq<Peer>, a: IpAddr, pods: seq<Pod>, namespaces: seq<Namespace>, policyNs: string)
  {
    peers == [] || SelectorsAdmit(peers, a, pods, namespaces, policyNs) || BlocksAdmit(peers, a)
  }

  /** What the generated entries admit. */
  predicate EntriesAdmit(r: ResolvedPeers, a: IpAddr) {
    r.matchAll || a in r.ips || NetLookup(r.nets, a)
  }

  lemma {:induction false} SelectorIpsExact(
    peers: seq<Peer>, pods: seq<Pod>, namespaces: seq<Namespace>, policyNs: string, family: Family, a: IpAddr)
    ensures a in SelectorIps(peers, pods, namespaces, policyNs, family) <==>
            a.family == family && SelectorsAdmit(peers, a, pods, namespaces, policyNs)
  {
    if peers != [] {
      var rest, last := peers[..|peers|-1], peers[|peers|-1];
      assert peers == rest + [last];
      SelectorIpsExact(rest, pods, namespaces, policyNs, family, a);
    }
  }

  lemma {:induction false} BlockNetsMembers(peers: seq<Peer>, family: Family, e: NetEntry)
    ensures e in BlockNets(peers, family) <==>
            exists b :: b in peers && b.IpBlock? && b.cidr.addr.family == family &&
                        if e.nomatch then e.net in b.except else e.net == b.cidr
  {
    if peers != [] {
      var rest, last := peers[..|peers|-1], peers[|peers|-1];
      assert peers == rest + [last];
      BlockNetsMembers(rest, family, e);
      if last.IpBlock? {
        assert e in Excepts(last.except) <==> e.nomatch && e.net in last.except by {
          if e.nomatch && e.net in last.except {
            var i :| 0 <= i < |last.except| && last.except[i] == e.net;
            assert Excepts(last.except)[i] == e;
          }
        }
      }
    }
  }

  /** Every exception lies strictly inside its own block, as the Kubernetes API demands. */
  ghost predicate ExceptsInside(peers: seq<Peer>) {
    forall b, e :: b in peers && b.IpBlock? && e in b.except ==> Covers(b.cidr, e) && b.cidr.len < e.len
  }

  /** The entry decides some address: no longer prefix of the set answers for all of its range. */
  ghost predicate Answers(entries: seq<NetEntry>, e: NetEntry) {
    exists a :: Best(entries, a) == Some(e)
  }

  /** An excepted range that decides some address of the family is excepted by every block that covers it. */
  ghost predicate ExceptsShared(peers: seq<Peer>, family: Family) {
    forall c, e: IpNet :: c in peers && c.IpBlock? && e.addr.family == family && Covers(c.cidr, e)
                   && Answers(BlockNets(peers, family), NetEntry(e, true))
                   ==> exists f :: f in c.except && Covers(f, e)
  }

  ghost predicate BlocksDisjoint(peers: seq<Peer>) {
    forall b, c, a: IpAddr :: b in peers && c in peers && b.IpBlock? && c.IpBlock? && Contains(b.cidr, a) && Contains(c.cidr, a)
                    ==> b == c
  }

  /** Pairwise disjoint blocks have nothing to share. */
  lemma {:induction false} DisjointBlocksShareExcepts(peers: seq<Peer>, family: Family)
    requires BlocksDisjoint(peers) && ExceptsInside(peers)
    ensures ExceptsShared(peers, family)
  {
    var entries := BlockNets(peers, family);
    forall c, e | c in peers && c.IpBlock? && Covers(c.cidr, e) && Answers(entries, NetEntry(e, true))
      ensures exists f :: f in c.except && Covers(f, e)
    {
      var a :| Best(entries, a) == Some(NetEntry(e, true));
      BestIsLongest(entries, a);
      BlockNetsMembers(peers, family, NetEntry(e, true));
      var b :| b in peers && b.IpBlock? && e in b.except;
      ContainsIffInRange(e, Network(e));
      assert Contains(b.cidr, Network(e)) && Contains(c.cidr, Network(e));
      assert b == c;
      assert e in c.except && Covers(e, e);
    }
  }

  /** A lookup never admits what the blocks exclude: only exceptions outside their block could cause that. */
  lemma {:induction false} LookupImpliesAdmitted(peers: seq<Peer>, family: Family, a: IpAddr)
    requires ExceptsInside(peers)
    requires NetLookup(BlockNets(peers, family), a)
    ensures BlocksAdmit(peers, a)
  {
    var entries := BlockNets(peers, family);
    BestIsLongest(entries, a);
    var best := Best(entries, a).value;
    BlockNetsMembers(peers, family, best);
    var b :| b in peers && b.IpBlock? && b.cidr.addr.family == family && best.net == b.cidr;
    forall e | e in b.except
      ensures !Contains(e, a)
    {
      BlockNetsMembers(peers, family, NetEntry(e, true));
      assert NetEntry(e, true) in entries;
    }
    assert BlockAdmits(b, a);
  }

  /** A lookup never loses what the blocks admit: only an exception another block does not share could cause that. */
  lemma {:induction false} AdmittedImpliesLookup(peers: seq<Peer>, family: Family, a: IpAddr)
    requires ExceptsShared(peers, family)
    requires a.family == family && BlocksAdmit(peers, a)
    ensures NetLookup(BlockNets(peers, family), a)
  {
    var entries := BlockNets(peers, family);
    BestIsLongest(entries, a);
    var c :| c in peers && BlockAdmits(c, a);
    BlockNetsMembers(peers, family, NetEntry(c.cidr, false));
    assert NetEntry(c.cidr, false) in entries;
    var best := Best(entries, a).value;
    if best.nomatch {
      assert best == NetEntry(best.net, true);
      SharedAddressNests(c.cidr, best.net, a);
    }
  }

  /** The `nomatch` encoding is exact, address by address. */
  lemma {:induction false} NomatchExact(peers: seq<Peer>, family: Family, a: IpAddr)
    requires ExceptsInside(peers) && ExceptsShared(peers, family) && a.family == family
    ensures NetLookup(BlockNets(peers, family), a) <==> BlocksAdmit(peers, a)
  {
    if NetLookup(BlockNets(peers, family), a) {
      LookupImpliesAdmitted(peers, family, a);
    }
    if BlocksAdmit(peers, a) {
      AdmittedImpliesLookup(peers, family, a);
    }
  }

  /** Sharing the exceptions is not only enough but needed, whatever the peers; with exceptions inside their
      blocks it is what exactness takes. */
  lemma {:induction false} NomatchExactIff(peers: seq<Peer>, family: Family)
    ensures ExceptsShared(peers, family) <==>
            forall a: IpAddr :: a.family == family && BlocksAdmit(peers, a) ==> NetLookup(BlockNets(peers, family), a)
    ensures ExceptsInside(peers) ==>
              (ExceptsShared(peers, family) <==>
               forall a: IpAddr :: a.family == family ==> (NetLookup(BlockNets(peers, family), a) <==> BlocksAdmit(peers, a)))
  {
    if ExceptsShared(peers, family) {
      forall a: IpAddr | a.family == family && BlocksAdmit(peers, a)
        ensures NetLookup(BlockNets(peers, family), a)
      {
        AdmittedImpliesLookup(peers, family, a);
      }
    } else {
      var c, e: IpNet :| c in peers && c.IpBlock? && e.addr.family == family && Covers(c.cidr, e)
                  && Answers(BlockNets(peers, family), NetEntry(e, true)) && !(exists f :: f in c.except && Covers(f, e));
      var a :| Best(BlockNets(peers, family), a) == Some(NetEntry(e, true));
      UnsharedExceptLoses(peers, family, c, e, a);
    }
    if ExceptsInside(peers) {
      forall a: IpAddr | a.family == family && NetLookup(BlockNets(peers, family), a)
        ensures BlocksAdmit(peers, a)
      {
        LookupImpliesAdmitted(peers, family, a);
      }
    }
  }

  /** The failing direction: an address an unshared exception decides is admitted by the other block and lost. */
  lemma {:induction false} UnsharedExceptLoses(peers: seq<Peer>, family: Family, c: Peer, e: IpNet, a: IpAddr)
    requires c in peers && c.IpBlock? && e.addr.family == family && Covers(c.cidr, e)
    requires Best(BlockNets(peers, family), a) == Some(NetEntry(e, true))
    requires !(exists f :: f in c.except && Covers(f, e))
    ensures a.family == family && BlocksAdmit(peers, a) && !NetLookup(BlockNets(peers, family), a)
  {
    var entries := BlockNets(peers, family);
    BestIsLongest(entries, a);
    forall f | f in c.except
      ensures !Contains(f, a)
    {
      if Contains(f, a) {
        BlockNetsMembers(peers, family, NetEntry(f, true));
        assert NetEntry(f, true) in entries;
        SharedAddressNests(f, e, a);
      }
    }
    assert BlockAdmits(c, a);
  }

  /** Resolution preserves the meaning of a peer list, each direction under its own condition on the ipBlocks. */
  lemma {:induction false} ResolveExact(
    peers: seq<Peer>, pods: seq<Pod>, namespaces: seq<Namespace>, policyNs: string, family: Family, a: IpAddr)
    requires a.family == family
    ensures ExceptsShared(peers, family) && PeersAdmit(peers, a, pods, namespaces, policyNs)
            ==> EntriesAdmit(Resolve(peers, pods, namespaces, policyNs, family), a)
    ensures ExceptsInside(peers) && EntriesAdmit(Resolve(peers, pods, namespaces, policyNs, family), a)
            ==> PeersAdmit(peers, a, pods, namespaces, policyNs)
  {
    if peers != [] {
      SelectorIpsExact(peers, pods, namespaces, policyNs, family, a);
      if ExceptsShared(peers, family) && BlocksAdmit(peers, a) {
        AdmittedImpliesLookup(peers, family, a);
      }
      if ExceptsInside(peers) && NetLookup(BlockNets(peers, family), a) {
        LookupImpliesAdmitted(peers, family, a);
      }
    }
  }
}
