// The service reconciler: brings the IPVS table and the dummy interface in step with a desired table,
// fully or by the difference to what it applied last, draining lost destinations.

module ServiceSync {
  import opened Wrappers
  import opened Net
  import opened ServiceModel
  import opened Ipvs
  import opened Graceful

  datatype Settings = Settings(graceful: bool, period: Time, rule: TableRule)

  /** What one pass reads from outside: the clock at each drain and at the sweep, and the connection counts. */
  datatype Env = Env(drainedAt: Slot -> Time, sweepNow: Time, stats: Slot -> Option<(nat, nat)>)

  // ---- lookups ----------------------------------------------------------------------------------

  predicate At(d: IpvsDestination, addr: IpAddr, port: nat) {
    d.addr == addr && d.port == port
  }

  /** The first destination with that address and port. */
  function Find(ds: seq<IpvsDestination>, addr: IpAddr, port: nat): (r: Option<IpvsDestination>)
    ensures r.Some? ==> r.value in ds && At(r.value, addr, port)
    ensures r.None? ==> forall d :: d in ds ==> !At(d, addr, port)
  {
    if ds == [] then None else
      var rest, last := Find(ds[..|ds|-1], addr, port), ds[|ds|-1];
      assert ds == ds[..|ds|-1] + [last];
      if rest.Some? then rest else if At(last, addr, port) then Some(last) else None
  }

  function Listed(t: Table, s: Slot): Option<IpvsDestination> {
    if s.key in t then Find(t[s.key].dests, s.addr, s.port) else None
  }

  /** A table as the first half of a pass builds it: keyed by service, weight 1, one forwarding method a service. */
  ghost predicate Uniform(t: Table) {
    forall k :: k in t ==> UniformEntry(k, t[k])
  }

  ghost predicate UniformEntry(k: Key, e: Entry) {
    && e.svc.KeyOf() == k
    && (forall d :: d in e.dests ==> d.weight == 1 && Find(e.dests, d.addr, d.port) == Some(d))
  }

  // ---- what a pass does, slot by slot -------------------------------------------------------------

  /** The service stays, the destination is no longer listed. */
  predicate Stale(applied: Table, desired: Table, s: Slot) {
    s.key in desired && Listed(applied, s).Some? && Listed(desired, s).None?
  }

  /** What the programming phase makes of a destination slot, from what was listed there, what is wanted and
      what the kernel holds: additions on a full pass and for new backends, edits for changed ones. */
  function Written(rule: TableRule, prev: Option<IpvsDestination>, want: Option<IpvsDestination>, full: bool, was: Option<IpvsDestination>)
    : Option<IpvsDestination>
  {
    if want.None? then was
    else if full || prev.None? then Some(Added(rule, was, want.value))
    else if prev == want then was
    else Edited(rule, was, want.value)
  }

  function ServiceWritten(rule: TableRule, applied: Table, desired: Table, full: bool, k: Key, was: Option<IpvsService>): Option<IpvsService> {
    if k !in desired then was
    else if k in applied && applied[k].svc != desired[k].svc then Edited(rule, was, desired[k].svc)
    else if k in applied && !full then was
    else Some(Added(rule, was, desired[k].svc))
  }

  predicate ServiceDropped(applied: Table, desired: Table, k: Key) {
    k in applied && k !in desired
  }

  ghost predicate ServicesProgrammed(rule: TableRule, before: Services, after: Services, applied: Table, desired: Table, full: bool) {
    forall k :: Look(after, k) == ServiceWritten(rule, applied, desired, full, k, Look(before, k))
  }

  ghost predicate DestsProgrammed(rule: TableRule, before: Destinations, after: Destinations, applied: Table, desired: Table, full: bool) {
    forall s :: Look(after, s) == Written(rule, Listed(applied, s), Listed(desired, s), full, Look(before, s))
  }

  function Drained(d: IpvsDestination): IpvsDestination {
    d.(weight := 0)
  }

  /** What removal leaves of a stale destination. */
  function Remains(cfg: Settings, listed: Option<IpvsDestination>, was: Option<IpvsDestination>): Option<IpvsDestination>
    requires listed.Some?
  {
    if cfg.graceful then Edited(cfg.rule, was, Drained(listed.value)) else None
  }

  ghost predicate StaleRemoved(before: Destinations, after: Destinations, applied: Table, desired: Table, cfg: Settings) {
    forall s :: Look(after, s) == if Stale(applied, desired, s) then Remains(cfg, Listed(applied, s), Look(before, s)) else Look(before, s)
  }

  function DeadlineAfter(queue: map<Slot, Time>, applied: Table, desired: Table, cfg: Settings, env: Env, s: Slot): Option<Time> {
    if s in queue then Some(queue[s])
    else if cfg.graceful && Stale(applied, desired, s) then Some(env.drainedAt(s) + cfg.period)
    else None
  }

  ghost predicate StaleQueued(before: map<Slot, Time>, after: map<Slot, Time>, applied: Table, desired: Table, cfg: Settings, env: Env) {
    forall s :: Look(after, s) == DeadlineAfter(before, applied, desired, cfg, env, s)
  }

  function Endpoint(k: Key): (IpAddr, nat) {
    (k.addr, k.port)
  }

  ghost predicate StaleAt(applied: Table, desired: Table, k: Key) {
    exists s: Slot :: s.key == k && Stale(applied, desired, s)
  }

  ghost predicate Flushed(before: set<(IpAddr, nat)>, after: set<(IpAddr, nat)>, applied: Table, desired: Table) {
    forall f :: f in after <==> f in before || exists k: Key :: Endpoint(k) == f && k.protocol.Udp?
                                                 && (StaleAt(applied, desired, k) || ServiceDropped(applied, desired, k))
  }

  predicate Idle(env: Env, s: Slot) {
    env.stats(s) == Some((0, 0))
  }

  /** A queued removal is carried out: idle or expired, and not wanted back. */
  predicate Swept(queue: map<Slot, Time>, desired: Table, env: Env, s: Slot) {
    s in queue && Listed(desired, s).None? && (Idle(env, s) || env.sweepNow >= queue[s])
  }

  ghost predicate QueueSwept(before: map<Slot, Time>, after: map<Slot, Time>, desired: Table, env: Env) {
    forall s :: Look(after, s) == if s in before && Listed(desired, s).None? && !Swept(before, desired, env, s) then Some(before[s]) else None
  }

  ghost predicate DestsSwept(before: Destinations, after: Destinations, queue: map<Slot, Time>, desired: Table, env: Env) {
    forall s :: Look(after, s) == if Swept(queue, desired, env, s) then None else Look(before, s)
  }

  // ---- the reconciler ---------------------------------------------------------------------------

  lemma {:induction false} FindPush(ds: seq<IpvsDestination>, i: nat, addr: IpAddr, port: nat)
    requires i < |ds|
    ensures Find(ds[..i+1], addr, port) ==
            if Find(ds[..i], addr, port).Some? then Find(ds[..i], addr, port)
            else if At(ds[i], addr, port) then Some(ds[i]) else None
  {
    assert ds[..i+1][..i] == ds[..i];
  }

  class ServiceSync {
    const ipvs: IpvsOps
    const link: DummyLink
    const gqueue: GracefulQueue
    const cfg: Settings
    var applied: Table
    var boundVips: set<IpAddr>

    ghost predicate Valid()
      reads this, gqueue
    {
      gqueue.Valid() && Uniform(applied) && ipvs.rule == cfg.rule
    }

    constructor (ipvs: IpvsOps, link: DummyLink, gqueue: GracefulQueue, cfg: Settings)
      requires gqueue.Valid() && ipvs.rule == cfg.rule
      ensures this.ipvs == ipvs && this.link == link && this.gqueue == gqueue && this.cfg == cfg
      ensures Valid() && applied == map[] && boundVips == {}
    {
      this.ipvs, this.link, this.gqueue, this.cfg := ipvs, link, gqueue, cfg;
      applied, boundVips := map[], {};
    }

    /** The destinations of one service: all of them on a full pass, else those that are new or changed. */
    method ProgramDests(svc: IpvsService, dests: seq<IpvsDestination>, prev: seq<IpvsDestination>, full: bool)
      requires UniformEntry(svc.KeyOf(), Entry(svc, dests))
      modifies ipvs`dests, ipvs`writes
      ensures forall s: Slot :: Look(ipvs.dests, s) ==
                if s.key != svc.KeyOf() then Look(old(ipvs.dests), s)
                else Written(ipvs.rule, Find(prev, s.addr, s.port), Find(dests, s.addr, s.port), full, Look(old(ipvs.dests), s))
      ensures !full && prev == dests ==> ipvs.writes == old(ipvs.writes)
    {
      ghost var before := ipvs.dests;
      for i := 0 to |dests|
        invariant EntryUpTo(ipvs.rule, before, ipvs.dests, svc.KeyOf(), prev, dests, i, full)
        invariant !full && prev == dests ==> ipvs.writes == old(ipvs.writes)
      {
        var d := dests[i];
        assert d in dests;
        ghost var mid := ipvs.dests;
        if full {
          ipvs.AddDestination(svc, d);
        } else {
          var o := Find(prev, d.addr, d.port);
          if o == Some(d) {
          } else if o.Some? {
            ipvs.UpdateDestination(svc, d);
          } else {
            ipvs.AddDestination(svc, d);
          }
        }
        EntryStep(ipvs.rule, before, mid, ipvs.dests, svc.KeyOf(), prev, dests, i, full);
      }
      assert dests[..|dests|] == dests;
    }

    /** Add or update the desired services and their destinations. */
    method Program(desired: Table, full: bool)
      requires Uniform(desired) && Uniform(applied)
      modifies ipvs`services, ipvs`dests, ipvs`writes
      ensures ServicesProgrammed(ipvs.rule, old(ipvs.services), ipvs.services, applied, desired, full)
      ensures DestsProgrammed(ipvs.rule, old(ipvs.dests), ipvs.dests, applied, desired, full)
      ensures !full && applied == desired ==> ipvs.writes == old(ipvs.writes)
    {
      hide Find, Listed, ServicesUpTo, DestsUpTo, ServicesProgrammed, DestsProgrammed, UniformEntry, Written;
      ghost var services, dests := ipvs.services, ipvs.dests;
      var rest := desired.Keys;
      NothingProgrammed(ipvs.rule, services, dests, applied, desired, full);
      while rest != {}
        invariant rest <= desired.Keys
        invariant ServicesUpTo(ipvs.rule, services, ipvs.services, applied, desired, full, rest)
        invariant DestsUpTo(ipvs.rule, dests, ipvs.dests, applied, desired, full, rest)
        invariant !full && applied == desired ==> ipvs.writes == old(ipvs.writes)
        decreases |rest|
      {
        var key :| key in rest;
        var isvc, wanted := desired[key].svc, desired[key].dests;
        EntryKey(desired, key);
        ghost var services1, dests1 := ipvs.services, ipvs.dests;
        if key in applied && applied[key].svc != isvc {
          ipvs.EditService(isvc);
        } else if key in applied && full {
          ipvs.AddService(isvc);
        } else if key in applied {
        } else {
          ipvs.AddService(isvc);
        }
        ServicesStep(ipvs.rule, services, services1, ipvs.services, applied, desired, full, rest, key);
        var prevDests := if key in applied then applied[key].dests else [];
        ProgramDests(isvc, wanted, prevDests, full);
        DestsStep(ipvs.rule, dests, dests1, ipvs.dests, applied, desired, full, rest, key, prevDests);
        rest := rest - {key};
      }
      AllProgrammed(ipvs.rule, services, ipvs.services, dests, ipvs.dests, applied, desired, full);
    }

    /** Destinations that lost their endpoint, and services no longer desired. */
    method CollectStale(desired: Table) returns (stale: seq<(IpvsService, IpvsDestination)>, removed: seq<IpvsService>)
      requires Uniform(desired) && Uniform(applied)
      ensures StaleList(stale, applied, desired) && DroppedList(removed, applied, desired)
    {
      hide Uniform, Find;
      stale, removed := [], [];
      var rest := desired.Keys;
      while rest != {}
        invariant rest <= desired.Keys
        invariant forall p :: p in stale ==> StalePair(p, applied, desired)
        invariant forall s :: Stale(applied, desired, s) && s.key !in rest ==> PairFor(stale, s)
        decreases |rest|
      {
        var key :| key in rest;
        EntryKey(desired, key);
        if key in applied {
          EntryKey(applied, key);
          ghost var before := stale;
          var prev := applied[key].dests;
          for i := 0 to |prev|
            invariant before <= stale
            invariant forall p :: p in stale ==> StalePair(p, applied, desired)
            invariant forall j :: 0 <= j < i && Stale(applied, desired, SlotOf(key, prev[j])) ==> PairFor(stale, SlotOf(key, prev[j]))
          {
            ListedAgain(applied, key, i);
            if Find(desired[key].dests, prev[i].addr, prev[i].port).None? {
              PairPush(stale, (desired[key].svc, prev[i]));
              assert StalePair((desired[key].svc, prev[i]), applied, desired);
              stale := stale + [(desired[key].svc, prev[i])];
            }
          }
          forall s: Slot | Stale(applied, desired, s) && s.key !in rest - {key}
            ensures PairFor(stale, s)
          {
            if s.key == key {
              var d := Listed(applied, s).value;
              var j :| 0 <= j < |prev| && prev[j] == d;
              assert SlotOf(key, prev[j]) == s;
            } else {
              assert PairFor(before, s);
              PairPrefix(before, stale, s);
            }
          }
        }
        rest := rest - {key};
      }
      var left := applied.Keys;
      while left != {}
        invariant left <= applied.Keys
        invariant forall v :: v in removed ==> ServiceDropped(applied, desired, v.KeyOf())
        invariant forall k :: ServiceDropped(applied, desired, k) && k !in left ==> ServiceFor(removed, k)
        decreases |left|
      {
        var key :| key in left;
        EntryKey(applied, key);
        if key !in desired {
          ghost var before := removed;
          removed := removed + [applied[key].svc];
          ServicePush(before, applied[key].svc);
        }
        left := left - {key};
      }
    }

    /** `remove_destination`. */
    method RemoveDestination(svc: IpvsService, dst: IpvsDestination, env: Env)
      requires gqueue.Valid()
      modifies ipvs`dests, ipvs`writes, ipvs`flushed, gqueue
      ensures gqueue.Valid()
      ensures var s := SlotOf(svc.KeyOf(), dst);
              && ipvs.dests == Put(old(ipvs.dests), s, if cfg.graceful then Edited(ipvs.rule, Look(old(ipvs.dests), s), Drained(dst)) else None)
              && Deadlines(gqueue.items) ==
                   (if cfg.graceful && s !in Deadlines(old(gqueue.items))
                    then Deadlines(old(gqueue.items))[s := env.drainedAt(s) + cfg.period] else Deadlines(old(gqueue.items)))
              && ipvs.flushed == old(ipvs.flushed) + (if svc.protocol.Udp? then {Endpoint(svc.KeyOf())} else {})
    {
      if cfg.graceful {
        var draining := dst.(weight := 0);
        ipvs.UpdateDestination(svc, draining);
        gqueue.Enqueue(svc, draining, env.drainedAt(SlotOf(svc.KeyOf(), dst)) + cfg.period);
      } else {
        ipvs.DelDestination(svc, dst);
      }
      if svc.protocol == Udp {
        ipvs.FlushConntrackUdp(svc.addr, svc.port);
      }
    }
  
    method RemoveStale(stale: seq<(IpvsService, IpvsDestination)>, desired: Table, env: Env)
      requires gqueue.Valid() && StaleList(stale, applied, desired) && ipvs.rule == cfg.rule
      modifies ipvs`dests, ipvs`writes, ipvs`flushed, gqueue
      ensures gqueue.Valid()
      ensures StaleRemoved(old(ipvs.dests), ipvs.dests, applied, desired, cfg)
      ensures StaleQueued(Deadlines(old(gqueue.items)), Deadlines(gqueue.items), applied, desired, cfg, env)
      ensures StaleFlushed(old(ipvs.flushed), ipvs.flushed, applied, desired)
      ensures applied == desired ==> ipvs.writes == old(ipvs.writes)
    {
      hide RemovedUpTo, StaleList, Stale, Deadlines, Distinct, PairFor, StaleRemoved, StaleQueued, StaleFlushed;
      ghost var dests, queue, flushed := ipvs.dests, Deadlines(gqueue.items), ipvs.flushed;
      NoneRemoved(dests, queue, flushed, stale, applied, desired, cfg, env);
      for i := 0 to |stale|
        invariant gqueue.Valid()
        invariant RemovedUpTo(dests, ipvs.dests, queue, Deadlines(gqueue.items), flushed, ipvs.flushed, stale, i, applied, desired, cfg, env)
        invariant i == 0 ==> ipvs.writes == old(ipvs.writes)
      {
        ghost var dests1, queue1, flushed1 := ipvs.dests, Deadlines(gqueue.items), ipvs.flushed;
        RemoveDestination(stale[i].0, stale[i].1, env);
        RemovedStep(dests, dests1, ipvs.dests, queue, queue1, Deadlines(gqueue.items), flushed, flushed1, ipvs.flushed,
                    stale, i, applied, desired, cfg, env);
      }
      AllRemoved(dests, ipvs.dests, queue, Deadlines(gqueue.items), flushed, ipvs.flushed, stale, applied, desired, cfg, env);
      NothingStale(stale, applied, desired);
    }

    method DropServices(removed: seq<IpvsService>, desired: Table)
      requires DroppedList(removed, applied, desired)
      modifies ipvs
      ensures ServicesDropped(old(ipvs.services), ipvs.services, applied, desired)
      ensures DestsDropped(old(ipvs.dests), ipvs.dests, applied, desired)
      ensures DropFlushed(old(ipvs.flushed), ipvs.flushed, applied, desired)
      ensures applied == desired ==> ipvs.writes == old(ipvs.writes)
    {
      for i := 0 to |removed|
        invariant forall k :: Look(ipvs.services, k) == if ServiceFor(removed[..i], k) then None else Look(old(ipvs.services), k)
        invariant forall s: Slot :: Look(ipvs.dests, s) == if ServiceFor(removed[..i], s.key) then None else Look(old(ipvs.dests), s)
        invariant forall f :: f in ipvs.flushed <==>
                                f in old(ipvs.flushed) || exists k: Key :: Endpoint(k) == f && k.protocol.Udp? && ServiceFor(removed[..i], k)
        invariant i == 0 ==> ipvs.writes == old(ipvs.writes)
      {
        var isvc := removed[i];
        assert removed[..i+1] == removed[..i] + [isvc];
        ServicePush(removed[..i], isvc);
        ipvs.DelService(isvc);
        if isvc.protocol == Udp {
          ipvs.FlushConntrackUdp(isvc.addr, isvc.port);
        }
        assert Endpoint(isvc.KeyOf()) == (isvc.addr, isvc.port);
      }
      assert removed[..|removed|] == removed;
      NothingDropped(removed, applied, desired);
    }
  
    /** VIP bindings on the dummy interface. */
    method BindVips(wantVips: set<IpAddr>)
      modifies link
      ensures VipsBound(old(link.addrs), link.addrs, boundVips, wantVips)
    {
      var rest := wantVips;
      while rest != {}
        invariant rest <= wantVips
        invariant forall a :: a in link.addrs <==> a in old(link.addrs) || (a in wantVips - rest && a !in boundVips)
        decreases |rest|
      {
        var vip :| vip in rest;
        if vip !in boundVips {
          link.AddrAdd(vip);
        }
        rest := rest - {vip};
      }
      var stale := boundVips - wantVips;
      while stale != {}
        invariant stale <= boundVips - wantVips
        invariant forall a :: a in link.addrs <==>
                                (a in old(link.addrs) || (a in wantVips && a !in boundVips)) && a !in boundVips - wantVips - stale
        decreases |stale|
      {
        var vip :| vip in stale;
        link.AddrDel(vip);
        stale := stale - {vip};
      }
    }

    /** `process_graceful_queue`. */
    method ProcessGracefulQueue(env: Env)
      requires Valid()
      modifies ipvs`dests, ipvs`writes, gqueue
      ensures Valid()
      ensures DestsSwept(old(ipvs.dests), ipvs.dests, Deadlines(old(gqueue.items)), applied, env)
      ensures QueueSwept(Deadlines(old(gqueue.items)), Deadlines(gqueue.items), applied, env)
      ensures (forall s :: !Swept(Deadlines(old(gqueue.items)), applied, env, s)) ==> ipvs.writes == old(ipvs.writes)
    {
      hide Find, Uniform, Deadlines, Distinct;
      ghost var queue, dests := Deadlines(gqueue.items), ipvs.dests;
      if gqueue.items == [] {
        EmptyQueue(gqueue.items);
        return;
      }
      var pending := gqueue.Take();
      EmptyQueue([]);
      for i := 0 to |pending|
        invariant Distinct(gqueue.items) && applied == old(applied)
        invariant SweptUpTo(dests, ipvs.dests, queue, Deadlines(gqueue.items), pending, i, applied, env)
        invariant (forall s :: !Swept(queue, applied, env, s)) ==> ipvs.writes == old(ipvs.writes)
      {
        var p := pending[i];
        DeadlineOf(pending, i);
        NotYetSeen(pending, i);
        var key := p.svc.KeyOf();
        var readded := key in applied && exists d | d in applied[key].dests :: At(d, p.dst.addr, p.dst.port) && d.weight != 0;
        ReaddedIff(applied, p);
        if readded {
        } else {
          var idle := env.stats(p.Where()) == Some((0, 0));
          if idle || env.sweepNow >= p.deadline {
            ipvs.DelDestination(p.svc, p.dst);
          } else {
            gqueue.Requeue(p);
          }
        }
      }
      AllSwept(dests, ipvs.dests, queue, Deadlines(gqueue.items), pending, applied, env);
    }

    /** Everything a pass can read or change. */
    ghost function Abs(): State
      reads this, ipvs, link, gqueue
    {
      State(ipvs.services, ipvs.dests, ipvs.flushed, link.addrs, applied, boundVips, Deadlines(gqueue.items))
    }

    /** `reconcile_inner`, from the point where the desired table and addresses are known. */
    method ReconcileInner(desired: Table, wantVips: set<IpAddr>, full: bool, env: Env)
      requires Valid() && Uniform(desired)
      modifies this, ipvs, link, gqueue
      ensures Valid()
      ensures Passed(old(Abs()), desired, wantVips, full, cfg, env, Abs())
      ensures !full && desired == old(applied) && (forall s :: !Swept(old(Deadlines(gqueue.items)), desired, env, s))
              ==> ipvs.writes == old(ipvs.writes)
    {
      hide Find, Uniform, Deadlines, Distinct, Stale, ServicesProgrammed, DestsProgrammed, StaleRemoved, StaleQueued, StaleFlushed,
           ServicesDropped, DestsDropped, DropFlushed, VipsBound, DestsSwept, QueueSwept, StaleList, DroppedList, Passed;
      ghost var st := Abs();
      Program(desired, full);
      ghost var dests1 := ipvs.dests;
      ghost var services1 := ipvs.services;
      var stale, removed := CollectStale(desired);
      RemoveStale(stale, desired, env);
      ghost var dests2, flushed2, queue2 := ipvs.dests, ipvs.flushed, Deadlines(gqueue.items);
      if applied == desired {
        QueueUnchanged(st.queue, queue2, applied, desired, cfg, env);
      }
      DropServices(removed, desired);
      ghost var dests3 := ipvs.dests;
      BindVips(wantVips);
      applied, boundVips := desired, wantVips;
      ProcessGracefulQueue(env);
      PhasesCompose(st, services1, dests1, dests2, dests3, flushed2, queue2, desired, wantVips, full, cfg, env, Abs());
    }
  
    /** A whole pass on one snapshot. */
    method Reconcile(services: seq<Backed>, proxy: ProxyConfig, full: bool, env: Env)
      requires Valid()
      modifies this, ipvs, link, gqueue
      ensures Valid()
      ensures Passed(old(Abs()), TableOf(AllListings(services, proxy)), VipsOf(AllListings(services, proxy)), full, cfg, env, Abs())
    {
      var desired, wantVips := BuildDesired(services, proxy);
      DesiredUniform(services, proxy);
      ReconcileInner(desired, wantVips, full, env);
    }
  }

  /** The desired table of any snapshot is uniform. */
  lemma {:induction false} DesiredUniform(services: seq<Backed>, proxy: ProxyConfig)
    ensures Uniform(TableOf(AllListings(services, proxy)))
  {
    hide Listings;
    var t := TableOf(AllListings(services, proxy));
    forall k | k in t
      ensures UniformEntry(k, t[k])
    {
      DesiredMeaning(services, proxy, k, k.addr);
      assert t[k] == EntryAt(LastExposing(services, proxy, k).value, proxy, k);
      forall d | d in t[k].dests
        ensures d.weight == 1 && Find(t[k].dests, d.addr, d.port) == Some(d)
      {
        assert Find(t[k].dests, d.addr, d.port).Some?;
      }
    }
  }

  // ---- a whole pass -----------------------------------------------------------------------------------

  datatype State = State(
    services: Services, dests: Destinations, flushed: set<(IpAddr, nat)>, addrs: set<IpAddr>,
    applied: Table, bound: set<IpAddr>, queue: map<Slot, Time>)

  ghost predicate VipsBound(before: set<IpAddr>, after: set<IpAddr>, bound: set<IpAddr>, want: set<IpAddr>) {
    forall a :: a in after <==> if a in want then a in before || a !in bound else a in before && a !in bound
  }

  /** The destination the kernel holds at a slot before the sweep. */
  function BeforeSweep(st: State, desired: Table, full: bool, cfg: Settings, s: Slot): Option<IpvsDestination> {
    if ServiceDropped(st.applied, desired, s.key) then None
    else if Stale(st.applied, desired, s) then Remains(cfg, Listed(st.applied, s), Look(st.dests, s))
    else Written(cfg.rule, Listed(st.applied, s), Listed(desired, s), full, Look(st.dests, s))
  }

  /** The queued removal of a slot is carried out by this pass. */
  predicate SweptNow(st: State, desired: Table, cfg: Settings, env: Env, s: Slot) {
    var deadline := DeadlineAfter(st.queue, st.applied, desired, cfg, env, s);
    deadline.Some? && Listed(desired, s).None? && (Idle(env, s) || env.sweepNow >= deadline.value)
  }

  function DestAfter(st: State, desired: Table, full: bool, cfg: Settings, env: Env, s: Slot): Option<IpvsDestination> {
    if SweptNow(st, desired, cfg, env, s) then None else BeforeSweep(st, desired, full, cfg, s)
  }

  function QueueAfter(st: State, desired: Table, cfg: Settings, env: Env, s: Slot): Option<Time> {
    if Listed(desired, s).Some? || SweptNow(st, desired, cfg, env, s) then None
    else DeadlineAfter(st.queue, st.applied, desired, cfg, env, s)
  }

  function ServiceAfter(st: State, desired: Table, full: bool, cfg: Settings, k: Key): Option<IpvsService> {
    if ServiceDropped(st.applied, desired, k) then None
    else ServiceWritten(cfg.rule, st.applied, desired, full, k, Look(st.services, k))
  }

  /** One successful pass, seen from outside. */
  ghost predicate Passed(st: State, desired: Table, want: set<IpAddr>, full: bool, cfg: Settings, env: Env, after: State) {
    && (forall k :: Look(after.services, k) == ServiceAfter(st, desired, full, cfg, k))
    && (forall s :: Look(after.dests, s) == DestAfter(st, desired, full, cfg, env, s))
    && (forall s :: Look(after.queue, s) == QueueAfter(st, desired, cfg, env, s))
    && Flushed(st.flushed, after.flushed, st.applied, desired)
    && VipsBound(st.addrs, after.addrs, st.bound, want)
    && after.applied == desired && after.bound == want
  }

  lemma {:induction false} PhasesCompose(
    st: State, services1: Services, dests1: Destinations, dests2: Destinations, dests3: Destinations, flushed2: set<(IpAddr, nat)>,
    queue2: map<Slot, Time>, desired: Table, want: set<IpAddr>, full: bool, cfg: Settings, env: Env, after: State)
    requires ServicesProgrammed(cfg.rule, st.services, services1, st.applied, desired, full)
    requires DestsProgrammed(cfg.rule, st.dests, dests1, st.applied, desired, full)
    requires StaleRemoved(dests1, dests2, st.applied, desired, cfg)
    requires StaleQueued(st.queue, queue2, st.applied, desired, cfg, env)
    requires StaleFlushed(st.flushed, flushed2, st.applied, desired)
    requires ServicesDropped(services1, after.services, st.applied, desired)
    requires DestsDropped(dests2, dests3, st.applied, desired)
    requires DropFlushed(flushed2, after.flushed, st.applied, desired)
    requires VipsBound(st.addrs, after.addrs, st.bound, want)
    requires DestsSwept(dests3, after.dests, queue2, desired, env)
    requires QueueSwept(queue2, after.queue, desired, env)
    requires after.applied == desired && after.bound == want
    ensures Passed(st, desired, want, full, cfg, env, after)
  {
    hide Find;
    forall s
      ensures SweptNow(st, desired, cfg, env, s) <==> Swept(queue2, desired, env, s)
    {
      assert Look(queue2, s) == DeadlineAfter(st.queue, st.applied, desired, cfg, env, s);
    }
    forall s
      ensures Look(dests3, s) == BeforeSweep(st, desired, full, cfg, s)
    {
      assert Look(dests1, s) == Written(cfg.rule, Listed(st.applied, s), Listed(desired, s), full, Look(st.dests, s));
      assert Look(dests2, s) == if Stale(st.applied, desired, s) then Remains(cfg, Listed(st.applied, s), Look(dests1, s)) else Look(dests1, s);
    }
    forall s
      ensures Look(after.queue, s) == QueueAfter(st, desired, cfg, env, s)
    {
      assert Look(queue2, s) == DeadlineAfter(st.queue, st.applied, desired, cfg, env, s);
    }
    FlushesCompose(st.flushed, flushed2, after.flushed, st.applied, desired);
  }

  lemma {:induction false} FlushesCompose(
    before: set<(IpAddr, nat)>, mid: set<(IpAddr, nat)>, after: set<(IpAddr, nat)>, applied: Table, desired: Table)
    requires StaleFlushed(before, mid, applied, desired) && DropFlushed(mid, after, applied, desired)
    ensures Flushed(before, after, applied, desired)
  {
  }

  lemma {:induction false} QueueUnchanged(before: map<Slot, Time>, after: map<Slot, Time>, applied: Table, desired: Table, cfg: Settings, env: Env)
    requires StaleQueued(before, after, applied, desired, cfg, env) && applied == desired
    ensures after == before
  {
    forall s
      ensures (s in after <==> s in before) && (s in before ==> after[s] == before[s])
    {
      assert Look(after, s) == DeadlineAfter(before, applied, desired, cfg, env, s);
    }
  }

  // ---- the sweep, one by one -------------------------------------------------------------------------

  lemma {:induction false} EmptyQueue(items: seq<PendingRemoval>)
    requires items == []
    ensures Deadlines(items) == map[] && Distinct(items)
  {
  }

  /** In a uniform table, a weight other than 0 is any weight. */
  lemma {:induction false} ReaddedIff(applied: Table, p: PendingRemoval)
    requires Uniform(applied)
    ensures (p.svc.KeyOf() in applied && exists d :: d in applied[p.svc.KeyOf()].dests && At(d, p.dst.addr, p.dst.port) && d.weight != 0)
            <==> Listed(applied, p.Where()).Some?
  {
    if p.svc.KeyOf() in applied {
      assert UniformEntry(p.svc.KeyOf(), applied[p.svc.KeyOf()]);
    }
  }

  ghost predicate SeenBefore(pending: seq<PendingRemoval>, i: nat, s: Slot)
    requires i <= |pending|
  {
    exists j :: 0 <= j < i && pending[j].Where() == s
  }

  lemma {:induction false} NotYetSeen(pending: seq<PendingRemoval>, i: nat)
    requires Distinct(pending) && i < |pending|
    ensures !SeenBefore(pending, i, pending[i].Where())
    ensures forall s :: SeenBefore(pending, i + 1, s) <==> SeenBefore(pending, i, s) || s == pending[i].Where()
  {
  }

  /** The first `i` queued removals are dealt with. */
  ghost predicate SweptUpTo(
    dests: Destinations, dests': Destinations, queue: map<Slot, Time>, queue': map<Slot, Time>,
    pending: seq<PendingRemoval>, i: nat, applied: Table, env: Env)
  {
    && i <= |pending| && Distinct(pending) && queue == Deadlines(pending)
    && (forall s :: Look(dests', s) == if SeenBefore(pending, i, s) && Swept(queue, applied, env, s) then None else Look(dests, s))
    && (forall s :: Look(queue', s) ==
                      if SeenBefore(pending, i, s) && s in queue && Listed(applied, s).None? && !Swept(queue, applied, env, s)
                      then Some(queue[s]) else None)
  }

  lemma {:induction false} AllSwept(
    dests: Destinations, dests': Destinations, queue: map<Slot, Time>, queue': map<Slot, Time>,
    pending: seq<PendingRemoval>, applied: Table, env: Env)
    requires SweptUpTo(dests, dests', queue, queue', pending, |pending|, applied, env)
    ensures DestsSwept(dests, dests', queue, applied, env) && QueueSwept(queue, queue', applied, env)
  {
    forall s
      ensures SeenBefore(pending, |pending|, s) <==> s in queue
    {
      QueuedIff(pending, s);
      if s in queue {
        var p :| p in pending && p.Where() == s;
        var j :| 0 <= j < |pending| && pending[j] == p;
      }
    }
  }

  // ---- removing, one by one -------------------------------------------------------------------------

  ghost predicate StaleFlushed(before: set<(IpAddr, nat)>, after: set<(IpAddr, nat)>, applied: Table, desired: Table) {
    forall f :: f in after <==> f in before || exists k: Key :: Endpoint(k) == f && k.protocol.Udp? && StaleAt(applied, desired, k)
  }

  ghost predicate ServicesDropped(before: Services, after: Services, applied: Table, desired: Table) {
    forall k :: Look(after, k) == if ServiceDropped(applied, desired, k) then None else Look(before, k)
  }

  ghost predicate DestsDropped(before: Destinations, after: Destinations, applied: Table, desired: Table) {
    forall s: Slot :: Look(after, s) == if ServiceDropped(applied, desired, s.key) then None else Look(before, s)
  }

  ghost predicate DropFlushed(before: set<(IpAddr, nat)>, after: set<(IpAddr, nat)>, applied: Table, desired: Table) {
    forall f :: f in after <==> f in before || exists k: Key :: Endpoint(k) == f && k.protocol.Udp? && ServiceDropped(applied, desired, k)
  }

  /** The first `i` stale destinations are dealt with. */
  ghost predicate RemovedUpTo(
    dests: Destinations, dests': Destinations, queue: map<Slot, Time>, queue': map<Slot, Time>,
    flushed: set<(IpAddr, nat)>, flushed': set<(IpAddr, nat)>,
    stale: seq<(IpvsService, IpvsDestination)>, i: nat, applied: Table, desired: Table, cfg: Settings, env: Env)
  {
    && i <= |stale| && StaleList(stale, applied, desired)
    && (forall s :: Look(dests', s) ==
                      if PairFor(stale[..i], s) && Listed(applied, s).Some? then Remains(cfg, Listed(applied, s), Look(dests, s))
                      else Look(dests, s))
    && (forall s :: Look(queue', s) ==
                      if s in queue then Some(queue[s])
                      else if cfg.graceful && PairFor(stale[..i], s) then Some(env.drainedAt(s) + cfg.period) else None)
    && (forall f :: f in flushed' <==>
                      f in flushed || exists s: Slot :: Endpoint(s.key) == f && s.key.protocol.Udp? && PairFor(stale[..i], s))
  }

  lemma {:induction false} NoneRemoved(
    dests: Destinations, queue: map<Slot, Time>, flushed: set<(IpAddr, nat)>,
    stale: seq<(IpvsService, IpvsDestination)>, applied: Table, desired: Table, cfg: Settings, env: Env)
    requires StaleList(stale, applied, desired)
    ensures RemovedUpTo(dests, dests, queue, queue, flushed, flushed, stale, 0, applied, desired, cfg, env)
  {
  }

  lemma {:induction false} RemovedStep(
    dests: Destinations, dests1: Destinations, dests': Destinations, queue: map<Slot, Time>, queue1: map<Slot, Time>, queue': map<Slot, Time>,
    flushed: set<(IpAddr, nat)>, flushed1: set<(IpAddr, nat)>, flushed': set<(IpAddr, nat)>,
    stale: seq<(IpvsService, IpvsDestination)>, i: nat, applied: Table, desired: Table, cfg: Settings, env: Env)
    requires RemovedUpTo(dests, dests1, queue, queue1, flushed, flushed1, stale, i, applied, desired, cfg, env) && i < |stale|
    requires var svc, dst := stale[i].0, stale[i].1;
             var s := SlotOf(svc.KeyOf(), dst);
             && dests' == Put(dests1, s, if cfg.graceful then Edited(cfg.rule, Look(dests1, s), Drained(dst)) else None)
             && queue' == (if cfg.graceful && s !in queue1 then queue1[s := env.drainedAt(s) + cfg.period] else queue1)
             && flushed' == flushed1 + (if svc.protocol.Udp? then {Endpoint(svc.KeyOf())} else {})
    ensures RemovedUpTo(dests, dests', queue, queue', flushed, flushed', stale, i + 1, applied, desired, cfg, env)
  {
    hide Find, Stale, PairFor;
    var p := stale[i];
    var at := SlotOf(p.0.KeyOf(), p.1);
    assert p in stale && StalePair(p, applied, desired);
    assert stale[..i+1] == stale[..i] + [p];
    PairPush(stale[..i], p);
    assert Listed(applied, at) == Some(p.1);
    forall s
      ensures Look(queue', s) == if s in queue then Some(queue[s])
                                 else if cfg.graceful && PairFor(stale[..i+1], s) then Some(env.drainedAt(s) + cfg.period) else None
    {
      assert Look(queue1, s) == if s in queue then Some(queue[s])
                                else if cfg.graceful && PairFor(stale[..i], s) then Some(env.drainedAt(s) + cfg.period) else None;
    }
  }

  lemma {:induction false} AllRemoved(
    dests: Destinations, dests': Destinations, queue: map<Slot, Time>, queue': map<Slot, Time>,
    flushed: set<(IpAddr, nat)>, flushed': set<(IpAddr, nat)>,
    stale: seq<(IpvsService, IpvsDestination)>, applied: Table, desired: Table, cfg: Settings, env: Env)
    requires RemovedUpTo(dests, dests', queue, queue', flushed, flushed', stale, |stale|, applied, desired, cfg, env)
    ensures StaleRemoved(dests, dests', applied, desired, cfg)
    ensures StaleQueued(queue, queue', applied, desired, cfg, env)
    ensures StaleFlushed(flushed, flushed', applied, desired)
  {
    hide Find;
    assert stale[..|stale|] == stale;
    forall s
      ensures PairFor(stale, s) <==> Stale(applied, desired, s)
    {
      if PairFor(stale, s) {
        var p :| p in stale && SlotOf(p.0.KeyOf(), p.1) == s;
        assert StalePair(p, applied, desired);
      }
    }
  }

  lemma {:induction false} NothingStale(stale: seq<(IpvsService, IpvsDestination)>, applied: Table, desired: Table)
    requires StaleList(stale, applied, desired)
    ensures applied == desired ==> stale == []
  {
    if stale != [] {
      var p := stale[0];
      assert p in stale;
      assert Stale(applied, desired, SlotOf(p.0.KeyOf(), p.1));
    }
  }

  lemma {:induction false} NothingDropped(removed: seq<IpvsService>, applied: Table, desired: Table)
    requires DroppedList(removed, applied, desired)
    ensures applied == desired ==> removed == []
  {
    if removed != [] {
      var v := removed[0];
      assert v in removed;
      assert ServiceDropped(applied, desired, v.KeyOf());
    }
  }

  // ---- lists of things to remove ------------------------------------------------------------------

  ghost predicate StalePair(p: (IpvsService, IpvsDestination), applied: Table, desired: Table) {
    var s := SlotOf(p.0.KeyOf(), p.1);
    Stale(applied, desired, s) && Listed(applied, s) == Some(p.1)
  }

  ghost predicate PairFor(stale: seq<(IpvsService, IpvsDestination)>, s: Slot) {
    exists p :: p in stale && SlotOf(p.0.KeyOf(), p.1) == s
  }

  ghost predicate StaleList(stale: seq<(IpvsService, IpvsDestination)>, applied: Table, desired: Table) {
    (forall p :: p in stale ==> StalePair(p, applied, desired)) && forall s :: Stale(applied, desired, s) ==> PairFor(stale, s)
  }

  ghost predicate ServiceFor(removed: seq<IpvsService>, k: Key) {
    exists v :: v in removed && v.KeyOf() == k
  }

  ghost predicate DroppedList(removed: seq<IpvsService>, applied: Table, desired: Table) {
    && (forall v :: v in removed ==> ServiceDropped(applied, desired, v.KeyOf()))
    && (forall k :: ServiceDropped(applied, desired, k) ==> ServiceFor(removed, k))
  }

  lemma {:induction false} PairPush(stale: seq<(IpvsService, IpvsDestination)>, p: (IpvsService, IpvsDestination))
    ensures forall s :: PairFor(stale + [p], s) <==> PairFor(stale, s) || SlotOf(p.0.KeyOf(), p.1) == s
  {
    forall s
      ensures PairFor(stale + [p], s) <==> PairFor(stale, s) || SlotOf(p.0.KeyOf(), p.1) == s
    {
      assert p in stale + [p];
      if PairFor(stale, s) {
        var q :| q in stale && SlotOf(q.0.KeyOf(), q.1) == s;
        assert q in stale + [p];
      }
    }
  }

  lemma {:induction false} PairPrefix(before: seq<(IpvsService, IpvsDestination)>, stale: seq<(IpvsService, IpvsDestination)>, s: Slot)
    requires before <= stale && PairFor(before, s)
    ensures PairFor(stale, s)
  {
    var q :| q in before && SlotOf(q.0.KeyOf(), q.1) == s;
    assert q in stale;
  }

  lemma {:induction false} ServicePush(removed: seq<IpvsService>, v: IpvsService)
    ensures forall k :: ServiceFor(removed + [v], k) <==> ServiceFor(removed, k) || v.KeyOf() == k
  {
    forall k
      ensures ServiceFor(removed + [v], k) <==> ServiceFor(removed, k) || v.KeyOf() == k
    {
      assert v in removed + [v];
      if ServiceFor(removed, k) {
        var w :| w in removed && w.KeyOf() == k;
        assert w in removed + [v];
      }
    }
  }

  /** In a uniform table, every destination is the one listed at its slot. */
  lemma {:induction false} ListedAgain(t: Table, key: Key, i: nat)
    requires Uniform(t) && key in t && i < |t[key].dests|
    ensures Listed(t, SlotOf(key, t[key].dests[i])) == Some(t[key].dests[i])
  {
    assert UniformEntry(key, t[key]);
    assert t[key].dests[i] in t[key].dests;
  }

  // ---- programming, key by key --------------------------------------------------------------------

  /** The first `i` destinations of one service are programmed. */
  ghost predicate EntryUpTo(
    rule: TableRule, before: Destinations, after: Destinations, key: Key, prev: seq<IpvsDestination>, dests: seq<IpvsDestination>,
    i: nat, full: bool)
  {
    && i <= |dests|
    && (forall s: Slot ::
          Look(after, s) == if s.key == key && Find(dests[..i], s.addr, s.port).Some?
                            then Written(rule, Find(prev, s.addr, s.port), Find(dests, s.addr, s.port), full, Look(before, s))
                            else Look(before, s))
  }

  lemma {:induction false} EntryStep(
    rule: TableRule, before: Destinations, mid: Destinations, after: Destinations, key: Key, prev: seq<IpvsDestination>,
    dests: seq<IpvsDestination>, i: nat, full: bool)
    requires EntryUpTo(rule, before, mid, key, prev, dests, i, full) && i < |dests|
    requires Find(dests, dests[i].addr, dests[i].port) == Some(dests[i])
    requires var s, o := SlotOf(key, dests[i]), Find(prev, dests[i].addr, dests[i].port);
             after == if full || o.None? then mid[s := Added(rule, Look(mid, s), dests[i])]
                      else if o == Some(dests[i]) then mid
                      else Put(mid, s, Edited(rule, Look(mid, s), dests[i]))
    ensures EntryUpTo(rule, before, after, key, prev, dests, i + 1, full)
  {
    hide Find;
    forall s: Slot
      ensures Look(after, s) == if s.key == key && Find(dests[..i+1], s.addr, s.port).Some?
                                then Written(rule, Find(prev, s.addr, s.port), Find(dests, s.addr, s.port), full, Look(before, s))
                                else Look(before, s)
    {
      FindPush(dests, i, s.addr, s.port);
      if s == SlotOf(key, dests[i]) {
        assert Look(mid, s) == if Find(dests[..i], s.addr, s.port).Some?
                               then Written(rule, Find(prev, s.addr, s.port), Some(dests[i]), full, Look(before, s)) else Look(before, s);
      } else {
        assert Look(after, s) == Look(mid, s);
      }
    }
  }

  ghost predicate ServicesUpTo(
    rule: TableRule, before: Services, after: Services, applied: Table, desired: Table, full: bool, rest: set<Key>)
  {
    forall k :: Look(after, k) == if k in rest then Look(before, k) else ServiceWritten(rule, applied, desired, full, k, Look(before, k))
  }

  ghost predicate DestsUpTo(
    rule: TableRule, before: Destinations, after: Destinations, applied: Table, desired: Table, full: bool, rest: set<Key>)
  {
    forall s :: Look(after, s) ==
                if s.key in rest then Look(before, s) else Written(rule, Listed(applied, s), Listed(desired, s), full, Look(before, s))
  }

  lemma {:induction false} EntryKey(t: Table, key: Key)
    requires Uniform(t) && key in t
    ensures UniformEntry(key, t[key]) && t[key].svc.KeyOf() == key
    ensures t[key] == Entry(t[key].svc, t[key].dests)
  {
  }

  lemma {:induction false} NothingProgrammed(
    rule: TableRule, services: Services, dests: Destinations, applied: Table, desired: Table, full: bool)
    ensures ServicesUpTo(rule, services, services, applied, desired, full, desired.Keys)
    ensures DestsUpTo(rule, dests, dests, applied, desired, full, desired.Keys)
  {
  }

  lemma {:induction false} ServicesStep(
    rule: TableRule, before: Services, mid: Services, after: Services, applied: Table, desired: Table, full: bool, rest: set<Key>, key: Key)
    requires ServicesUpTo(rule, before, mid, applied, desired, full, rest) && key in rest && key in desired
    requires after == Put(mid, key, ServiceWritten(rule, applied, desired, full, key, Look(mid, key)))
    ensures ServicesUpTo(rule, before, after, applied, desired, full, rest - {key})
  {
    hide ServiceWritten;
    assert Look(mid, key) == Look(before, key);
  }

  lemma {:induction false} DestsStep(
    rule: TableRule, before: Destinations, mid: Destinations, after: Destinations, applied: Table, desired: Table, full: bool,
    rest: set<Key>, key: Key, prev: seq<IpvsDestination>)
    requires DestsUpTo(rule, before, mid, applied, desired, full, rest) && key in rest && key in desired
    requires prev == if key in applied then applied[key].dests else []
    requires forall s: Slot :: Look(after, s) ==
               if s.key != key then Look(mid, s)
               else Written(rule, Find(prev, s.addr, s.port), Find(desired[key].dests, s.addr, s.port), full, Look(mid, s))
    ensures DestsUpTo(rule, before, after, applied, desired, full, rest - {key})
  {
    hide Written;
    forall s: Slot
      ensures Look(after, s) == if s.key in rest - {key} then Look(before, s)
                                else Written(rule, Listed(applied, s), Listed(desired, s), full, Look(before, s))
    {
      if s.key == key {
        assert Listed(desired, s) == Find(desired[key].dests, s.addr, s.port);
        assert Listed(applied, s) == Find(prev, s.addr, s.port);
        assert Look(mid, s) == Look(before, s);
      }
    }
  }

  lemma {:induction false} AllProgrammed(
    rule: TableRule, services: Services, services': Services, dests: Destinations, dests': Destinations, applied: Table, desired: Table, full: bool)
    requires ServicesUpTo(rule, services, services', applied, desired, full, {})
    requires DestsUpTo(rule, dests, dests', applied, desired, full, {})
    ensures ServicesProgrammed(rule, services, services', applied, desired, full)
    ensures DestsProgrammed(rule, dests, dests', applied, desired, full)
  {
  }
}
