// The kernel the service proxy programs: the IPVS table, under either rule for repeated writes, and the
// addresses of the dummy interface.

module Ipvs {
  import opened Wrappers
  import opened Net
  import opened ServiceModel

  /** Where a destination sits: a virtual service, and a backend address and port. */
  datatype Slot = Slot(key: Key, addr: IpAddr, port: nat)

  function SlotOf(key: Key, d: IpvsDestination): Slot {
    Slot(key, d.addr, d.port)
  }

  type Services = map<Key, IpvsService>

  type Destinations = map<Slot, IpvsDestination>

  function Without(dests: Destinations, key: Key): Destinations {
    map s | s in dests && s.key != key :: dests[s]
  }

  function Look<K, V>(m: map<K, V>, k: K): Option<V> {
    if k in m then Some(m[k]) else None
  }

  function Put<K, V>(m: map<K, V>, k: K, v: Option<V>): map<K, V> {
    if v.Some? then m[k := v.value] else m - {k}
  }

  /** What a write does to an entry that is, or is not, there. `Upsert` is the documented contract of the
      operations and their in-memory implementation: every write creates or updates. `Strict` is the kernel
      behind the system implementation, which takes "already exists" and "no such entry" for success: an
      addition leaves an existing entry alone, an edit a missing one. */
  datatype TableRule = Upsert | Strict

  function Added<T>(rule: TableRule, was: Option<T>, x: T): T {
    if rule.Strict? && was.Some? then was.value else x
  }

  function Edited<T>(rule: TableRule, was: Option<T>, x: T): Option<T> {
    if rule.Strict? && was.None? then None else Some(x)
  }

  /** `IpvsOps`. `writes` counts the calls that write the table, `flushed` the UDP endpoints whose
      connection tracking was flushed. */
  class IpvsOps {
    const rule: TableRule
    var services: Services
    var dests: Destinations
    var flushed: set<(IpAddr, nat)>
    var writes: nat

    constructor (rule: TableRule)
      ensures this.rule == rule && services == map[] && dests == map[] && flushed == {} && writes == 0
    {
      this.rule, services, dests, flushed, writes := rule, map[], map[], {}, 0;
    }

    method AddService(svc: IpvsService)
      modifies this`services, this`writes
      ensures services == old(services)[svc.KeyOf() := Added(rule, Look(old(services), svc.KeyOf()), svc)]
      ensures writes == old(writes) + 1
    {
      services, writes := services[svc.KeyOf() := Added(rule, Look(services, svc.KeyOf()), svc)], writes + 1;
    }

    method EditService(svc: IpvsService)
      modifies this`services, this`writes
      ensures services == Put(old(services), svc.KeyOf(), Edited(rule, Look(old(services), svc.KeyOf()), svc))
      ensures writes == old(writes) + 1
    {
      services, writes := Put(services, svc.KeyOf(), Edited(rule, Look(services, svc.KeyOf()), svc)), writes + 1;
    }

    method DelService(svc: IpvsService)
      modifies this`services, this`dests, this`writes
      ensures services == old(services) - {svc.KeyOf()} && dests == Without(old(dests), svc.KeyOf())
      ensures writes == old(writes) + 1
    {
      services, dests, writes := services - {svc.KeyOf()}, Without(dests, svc.KeyOf()), writes + 1;
    }

    method AddDestination(svc: IpvsService, d: IpvsDestination)
      modifies this`dests, this`writes
      ensures var s := SlotOf(svc.KeyOf(), d); dests == old(dests)[s := Added(rule, Look(old(dests), s), d)]
      ensures writes == old(writes) + 1
    {
      var s := SlotOf(svc.KeyOf(), d);
      dests, writes := dests[s := Added(rule, Look(dests, s), d)], writes + 1;
    }

    method DelDestination(svc: IpvsService, d: IpvsDestination)
      modifies this`dests, this`writes
      ensures dests == old(dests) - {SlotOf(svc.KeyOf(), d)} && writes == old(writes) + 1
    {
      dests, writes := dests - {SlotOf(svc.KeyOf(), d)}, writes + 1;
    }

    method UpdateDestination(svc: IpvsService, d: IpvsDestination)
      modifies this`dests, this`writes
      ensures var s := SlotOf(svc.KeyOf(), d); dests == Put(old(dests), s, Edited(rule, Look(old(dests), s), d))
      ensures writes == old(writes) + 1
    {
      var s := SlotOf(svc.KeyOf(), d);
      dests, writes := Put(dests, s, Edited(rule, Look(dests, s), d)), writes + 1;
    }

    method FlushConntrackUdp(addr: IpAddr, port: nat)
      modifies this`flushed
      ensures flushed == old(flushed) + {(addr, port)}
    {
      flushed := flushed + {(addr, port)};
    }
  }

  /** `NetlinkOps`, as far as the dummy interface goes; both calls are idempotent. */
  class DummyLink {
    var addrs: set<IpAddr>

    constructor ()
      ensures addrs == {}
    {
      addrs := {};
    }

    method AddrAdd(a: IpAddr)
      modifies this
      ensures addrs == old(addrs) + {a}
    {
      addrs := addrs + {a};
    }

    method AddrDel(a: IpAddr)
      modifies this
      ensures addrs == old(addrs) - {a}
    {
      addrs := addrs - {a};
    }
  }
}
