// One allocation pass: no address is handed out twice, or while any service holds it.

module Allocator {
  import opened Wrappers
  import opened Net
  import opened Pools
  import opened Allocate

  function AddressesOf(svc: LbService): seq<IpAddr> {
    svc.externalIps + svc.ingressIps
  }

  /** Some service of the snapshot holds the address. */
  ghost predicate HeldBySome(services: seq<LbService>, a: IpAddr) {
    exists svc :: svc in services && a in AddressesOf(svc)
  }

  /** `list` holds exactly the addresses of `f` that lie in the pool and are held by a service. */
  ghost predicate Collects(list: seq<IpAddr>, services: seq<LbService>, ranges: seq<IpNet>, f: Family) {
    forall a :: a in list <==> a.family == f && InPool(ranges, a) && HeldBySome(services, a)
  }

  lemma {:induction false} HeldByPrefix(services: seq<LbService>, i: nat, a: IpAddr)
    requires i < |services|
    ensures HeldBySome(services[..i+1], a) <==> HeldBySome(services[..i], a) || a in AddressesOf(services[i])
  {
    assert services[..i+1] == services[..i] + [services[i]];
  }

  /** `allocated_ips`. */
  method AllocatedIps(services: seq<LbService>, ranges4: seq<IpNet>, ranges6: seq<IpNet>)
    returns (v4: seq<IpAddr>, v6: seq<IpAddr>)
    ensures Collects(v4, services, ranges4, V4) && Collects(v6, services, ranges6, V6)
  {
    v4, v6 := [], [];
    for i := 0 to |services|
      invariant Collects(v4, services[..i], ranges4, V4) && Collects(v6, services[..i], ranges6, V6)
    {
      var ips := AddressesOf(services[i]);
      ghost var before4, before6 := v4, v6;
      for j := 0 to |ips|
        invariant forall a :: a in v4 <==> a in before4 || (a in ips[..j] && a.family == V4 && InPool(ranges4, a))
        invariant forall a :: a in v6 <==> a in before6 || (a in ips[..j] && a.family == V6 && InPool(ranges6, a))
      {
        var ip := ips[j];
        assert ips[..j+1] == ips[..j] + [ip];
        if ip.family == V4 && InPool(ranges4, ip) {
          v4 := v4 + [ip];
        } else if ip.family == V6 && InPool(ranges6, ip) {
          v6 := v6 + [ip];
        }
      }
      assert ips[..|ips|] == ips;
      forall a
        ensures HeldBySome(services[..i+1], a) <==> HeldBySome(services[..i], a) || a in ips
      {
        HeldByPrefix(services, i, a);
      }
    }
    assert services[..|services|] == services;
  }

  /** A status update asked of the API server. */
  datatype Update = Update(namespace: string, name: string, ips: seq<IpAddr>)

  function HandedOut(updates: seq<Update>): seq<IpAddr> {
    if updates == [] then [] else HandedOut(updates[..|updates|-1]) + updates[|updates|-1].ips
  }

  ghost predicate Distinct(s: seq<IpAddr>) {
    forall i, j :: 0 <= i < j < |s| ==> s[i] != s[j]
  }

  /** Everything handed out so far is new: of its family's pool, held by no service, never handed out before. */
  ghost predicate Fresh(handed: seq<IpAddr>, services: seq<LbService>, ranges4: seq<IpNet>, ranges6: seq<IpNet>) {
    && Distinct(handed)
    && forall a :: a in handed ==> InPool(if a.family.V4? then ranges4 else ranges6, a) && !HeldBySome(services, a)
  }

  /** The addresses a search must avoid: those held by services, and those handed out in this pass. */
  ghost predicate Avoids(taken: seq<IpAddr>, services: seq<LbService>, handed: seq<IpAddr>, ranges: seq<IpNet>, f: Family) {
    forall a: IpAddr :: a.family == f && InPool(ranges, a) ==> (a in taken <==> HeldBySome(services, a) || a in handed)
  }

  /** Every address of the pool is held or was handed out. */
  ghost predicate UsedUp(ranges: seq<IpNet>, services: seq<LbService>, handed: seq<IpAddr>) {
    forall a: IpAddr :: InPool(ranges, a) ==> HeldBySome(services, a) || a in handed
  }

  predicate AddressedTo(u: Update, svc: LbService) {
    u.namespace == svc.namespace && u.name == svc.name
  }

  predicate Gives(u: Update, f: Family) {
    exists a | a in u.ips :: a.family == f
  }

  /** Only owned services are updated, with addresses of families they lack. */
  ghost predicate Warranted(u: Update, services: seq<LbService>, isDefault: bool) {
    && u.ips != []
    && exists svc :: svc in services && ShouldAllocate(svc, isDefault) && AddressedTo(u, svc)
                     && (forall f :: Gives(u, f) ==> svc.Lacks(f))
                     && (svc.requireDual ==> Gives(u, V4) && Gives(u, V6))
  }

  function PoolOf(ranges4: seq<IpNet>, ranges6: seq<IpNet>, f: Family): seq<IpNet> {
    if f.V4? then ranges4 else ranges6
  }

  /** A dual-stack service one of whose families cannot be found now. */
  ghost predicate DualBlocked(svc: LbService, services: seq<LbService>, handed: seq<IpAddr>, ranges4: seq<IpNet>, ranges6: seq<IpNet>) {
    svc.requireDual
    && exists f :: !Searches(svc, PoolOf(ranges4, ranges6, f), f) || UsedUp(PoolOf(ranges4, ranges6, f), services, handed)
  }

  /** The service was given every family it lacks, as far as pools go. */
  ghost predicate Served(
    svc: LbService, made: seq<Update>, services: seq<LbService>, handed: seq<IpAddr>, ranges4: seq<IpNet>, ranges6: seq<IpNet>)
  {
    forall f :: Searches(svc, PoolOf(ranges4, ranges6, f), f) ==>
                  || (exists u :: u in made && AddressedTo(u, svc) && Gives(u, f))
                  || UsedUp(PoolOf(ranges4, ranges6, f), services, handed)
                  || DualBlocked(svc, services, handed, ranges4, ranges6)
                  || Unpooled(svc, ranges4 != [], ranges6 != [])
  }

  /** A search that avoids what is taken finds an address of its pool that nobody has. */
  lemma {:induction false} SearchIsFresh(
    svc: LbService, ranges: seq<IpNet>, f: Family, taken: seq<IpAddr>, was: Option<Cursor>, now: Option<Cursor>, found: Option<IpAddr>,
    services: seq<LbService>, handed: seq<IpAddr>)
    requires SingleFamily(ranges, f) && Avoids(taken, services, handed, ranges, f)
    requires Searched(svc, ranges, f, taken, was, now, found) && found.Some?
    ensures found.value.family == f && InPool(ranges, found.value) && svc.Lacks(f)
    ensures !HeldBySome(services, found.value) && found.value !in handed
  {
    FoundIsFree(ranges, was.value, taken, found, now.value);
    var r :| r in ranges && Contains(r, found.value);
    ContainsIffInRange(r, found.value);
  }

  lemma {:induction false} FailedSearchMeansUsedUp(
    svc: LbService, ranges: seq<IpNet>, f: Family, taken: seq<IpAddr>, was: Option<Cursor>, now: Option<Cursor>,
    services: seq<LbService>, handed: seq<IpAddr>)
    requires SingleFamily(ranges, f) && RangesDisjoint(ranges) && Avoids(taken, services, handed, ranges, f)
    requires Searches(svc, ranges, f) && Searched(svc, ranges, f, taken, was, now, None)
    ensures UsedUp(ranges, services, handed)
  {
    hide Scanned, Searches;
    DisjointIsUnshared(ranges, was.value);
    UnsharedSeesPool(ranges, f, was.value);
    ExhaustedIff(ranges, f, was.value, taken, None, now.value);
    forall a: IpAddr | InPool(ranges, a)
      ensures HeldBySome(services, a) || a in handed
    {
      var r :| r in ranges && Contains(r, a);
      ContainsIffInRange(r, a);
    }
  }

  datatype Pass = Pass(services: seq<LbService>, isDefault: bool, ranges4: seq<IpNet>, ranges6: seq<IpNet>) {
    ghost predicate Typed() {
      SingleFamily(ranges4, V4) && SingleFamily(ranges6, V6)
    }

    /** What holds while a pass has looked at the first `i` services and asked for the updates `made`. */
    ghost predicate Sound(taken4: seq<IpAddr>, taken6: seq<IpAddr>, made: seq<Update>) {
      && Typed()
      && Fresh(HandedOut(made), services, ranges4, ranges6)
      && Avoids(taken4, services, HandedOut(made), ranges4, V4) && Avoids(taken6, services, HandedOut(made), ranges6, V6)
      && (forall u :: u in made ==> Warranted(u, services, isDefault))
    }

    ghost predicate ServedTo(i: nat, made: seq<Update>) {
      RangesDisjoint(ranges4) && RangesDisjoint(ranges6) ==>
        forall k :: 0 <= k < i && k < |services| && ShouldAllocate(services[k], isDefault) ==>
          Served(services[k], made, services, HandedOut(made), ranges4, ranges6)
    }
  }

  lemma {:induction false} SoundAtStart(p: Pass, taken4: seq<IpAddr>, taken6: seq<IpAddr>)
    requires p.Typed() && Collects(taken4, p.services, p.ranges4, V4) && Collects(taken6, p.services, p.ranges6, V6)
    ensures p.Sound(taken4, taken6, []) && p.ServedTo(0, [])
  {
  }

  lemma {:induction false} UsedUpGrows(ranges: seq<IpNet>, services: seq<LbService>, handed: seq<IpAddr>, more: seq<IpAddr>)
    requires UsedUp(ranges, services, handed)
    ensures UsedUp(ranges, services, handed + more)
  {
  }

  /** More updates serve no service less. */
  lemma {:induction false} ServedGrows(p: Pass, i: nat, made: seq<Update>, u: Update)
    requires p.ServedTo(i, made)
    ensures p.ServedTo(i, made + [u])
  {
    hide Searches, Unpooled, ShouldAllocate, UsedUp, RangesDisjoint, Gives, AddressedTo;
    assert (made + [u])[..|made|] == made;
    var handed := HandedOut(made);
    assert HandedOut(made + [u]) == handed + u.ips;
    forall ranges | UsedUp(ranges, p.services, handed)
      ensures UsedUp(ranges, p.services, handed + u.ips)
    {
      UsedUpGrows(ranges, p.services, handed, u.ips);
    }
    if RangesDisjoint(p.ranges4) && RangesDisjoint(p.ranges6) {
      forall k | 0 <= k < i && k < |p.services| && ShouldAllocate(p.services[k], p.isDefault)
        ensures Served(p.services[k], made + [u], p.services, handed + u.ips, p.ranges4, p.ranges6)
      {
        var svc := p.services[k];
        assert Served(svc, made, p.services, handed, p.ranges4, p.ranges6);
        assert DualBlocked(svc, p.services, handed, p.ranges4, p.ranges6) ==>
               DualBlocked(svc, p.services, handed + u.ips, p.ranges4, p.ranges6);
      }
    }
  }

  /** The outcome of planning for service `i`. */
  datatype Outcome = Outcome(
    r: Result<AllocationPlan, AllocError>, was4: Option<Cursor>, now4: Option<Cursor>, was6: Option<Cursor>, now6: Option<Cursor>,
    found4: Option<IpAddr>, found6: Option<IpAddr>)

  ghost predicate Planned(p: Pass, svc: LbService, taken4: seq<IpAddr>, taken6: seq<IpAddr>, o: Outcome) {
    && Searched(svc, p.ranges4, V4, taken4, o.was4, o.now4, o.found4)
    && Searched(svc, p.ranges6, V6, taken6, o.was6, o.now6, o.found6)
    && Granted(svc, o.r, Searches(svc, p.ranges4, V4), Searches(svc, p.ranges6, V6), o.found4, o.found6)
  }

  /** A search that found nothing leaves the family's pool used up. */
  lemma {:induction false} NothingFound(p: Pass, svc: LbService, taken4: seq<IpAddr>, taken6: seq<IpAddr>, made: seq<Update>, o: Outcome)
    requires p.Sound(taken4, taken6, made) && Planned(p, svc, taken4, taken6, o)
    requires RangesDisjoint(p.ranges4) && RangesDisjoint(p.ranges6)
    ensures Searches(svc, p.ranges4, V4) && o.found4.None? ==> UsedUp(p.ranges4, p.services, HandedOut(made))
    ensures Searches(svc, p.ranges6, V6) && o.found6.None? ==> UsedUp(p.ranges6, p.services, HandedOut(made))
  {
    hide Scanned, RangesDisjoint, Fresh, Avoids, UsedUp;
    if Searches(svc, p.ranges4, V4) && o.found4.None? {
      FailedSearchMeansUsedUp(svc, p.ranges4, V4, taken4, o.was4, o.now4, p.services, HandedOut(made));
    }
    if Searches(svc, p.ranges6, V6) && o.found6.None? {
      FailedSearchMeansUsedUp(svc, p.ranges6, V6, taken6, o.was6, o.now6, p.services, HandedOut(made));
    }
  }

  /** A service that got nothing could not be served. */
  lemma {:induction false} NotUpdated(p: Pass, i: nat, taken4: seq<IpAddr>, taken6: seq<IpAddr>, made: seq<Update>, o: Outcome)
    requires i < |p.services| && p.Sound(taken4, taken6, made) && p.ServedTo(i, made)
    requires Planned(p, p.services[i], taken4, taken6, o) && (o.r.Ok? ==> o.r.value.IsEmpty())
    ensures p.ServedTo(i + 1, made)
  {
    hide Scanned, RangesDisjoint, Fresh, Avoids, UsedUp, Unpooled, ShouldAllocate;
    if RangesDisjoint(p.ranges4) && RangesDisjoint(p.ranges6) {
      var svc := p.services[i];
      NothingFound(p, svc, taken4, taken6, made, o);
      assert PoolOf(p.ranges4, p.ranges6, V4) == p.ranges4 && PoolOf(p.ranges4, p.ranges6, V6) == p.ranges6;
      assert Served(svc, made, p.services, HandedOut(made), p.ranges4, p.ranges6);
    }
  }

  /** `more` is `taken` and the addresses of `ips` of family `f`. */
  ghost predicate Extended(more: seq<IpAddr>, taken: seq<IpAddr>, ips: seq<IpAddr>, f: Family) {
    forall a: IpAddr :: a in more <==> a in taken || (a in ips && a.family == f)
  }

  lemma {:induction false} PlannedIpsAreFresh(p: Pass, svc: LbService, taken4: seq<IpAddr>, taken6: seq<IpAddr>, made: seq<Update>, o: Outcome)
    requires p.Sound(taken4, taken6, made) && Planned(p, svc, taken4, taken6, o) && o.r.Ok?
    ensures var ips := o.r.value.Ips();
            && Fresh(HandedOut(made) + ips, p.services, p.ranges4, p.ranges6)
            && (forall a :: a in ips ==> InPool(PoolOf(p.ranges4, p.ranges6, a.family), a) && svc.Lacks(a.family))
            && (forall f :: (exists a :: a in ips && a.family == f) <==> if f.V4? then o.found4.Some? else o.found6.Some?)
  {
    hide Scanned, InPool, HeldBySome, Searches;
    var handed, plan := HandedOut(made), o.r.value;
    if o.found4.Some? {
      SearchIsFresh(svc, p.ranges4, V4, taken4, o.was4, o.now4, o.found4, p.services, handed);
      assert plan.Ips()[0] == o.found4.value;
    }
    if o.found6.Some? {
      SearchIsFresh(svc, p.ranges6, V6, taken6, o.was6, o.now6, o.found6, p.services, handed);
      assert plan.Ips()[|plan.Ips()| - 1] == o.found6.value;
    }
  }

  lemma {:induction false} AvoidsMore(
    taken: seq<IpAddr>, more: seq<IpAddr>, ips: seq<IpAddr>, services: seq<LbService>, handed: seq<IpAddr>, ranges: seq<IpNet>, f: Family)
    requires Avoids(taken, services, handed, ranges, f) && Extended(more, taken, ips, f)
    ensures Avoids(more, services, handed + ips, ranges, f)
  {
    hide InPool, HeldBySome;
  }

  /** One served service: what was asked stays sound, and the service has what it lacked. */
  lemma {:induction false} Updated(
    p: Pass, i: nat, taken4: seq<IpAddr>, taken6: seq<IpAddr>, more4: seq<IpAddr>, more6: seq<IpAddr>, made: seq<Update>, o: Outcome, u: Update)
    requires i < |p.services| && p.Sound(taken4, taken6, made) && p.ServedTo(i, made)
    requires ShouldAllocate(p.services[i], p.isDefault)
    requires Planned(p, p.services[i], taken4, taken6, o) && o.r.Ok? && !o.r.value.IsEmpty()
    requires u == Update(p.services[i].namespace, p.services[i].name, o.r.value.Ips())
    requires Extended(more4, taken4, u.ips, V4) && Extended(more6, taken6, u.ips, V6)
    ensures p.Sound(more4, more6, made + [u]) && p.ServedTo(i + 1, made + [u])
  {
    hide Scanned, RangesDisjoint, Avoids, UsedUp, Unpooled, ShouldAllocate, Fresh, Extended, InPool;
    var svc, handed := p.services[i], HandedOut(made);
    PlannedIpsAreFresh(p, svc, taken4, taken6, made, o);
    AvoidsMore(taken4, more4, u.ips, p.services, handed, p.ranges4, V4);
    AvoidsMore(taken6, more6, u.ips, p.services, handed, p.ranges6, V6);
    assert (made + [u])[..|made|] == made;
    assert HandedOut(made + [u]) == handed + u.ips;
    assert svc in p.services;
    assert forall f :: Gives(u, f) <==> exists a :: a in u.ips && a.family == f;
    assert Warranted(u, p.services, p.isDefault);
    ServedGrows(p, i, made, u);
    if RangesDisjoint(p.ranges4) && RangesDisjoint(p.ranges6) {
      NothingFound(p, svc, taken4, taken6, made, o);
      ServedNow(p, svc, taken4, taken6, made, o, u);
    }
  }

  lemma {:induction false} ServedNow(p: Pass, svc: LbService, taken4: seq<IpAddr>, taken6: seq<IpAddr>, made: seq<Update>, o: Outcome, u: Update)
    requires Planned(p, svc, taken4, taken6, o) && AddressedTo(u, svc)
    requires forall f :: Gives(u, f) <==> if f.V4? then o.found4.Some? else o.found6.Some?
    requires Searches(svc, p.ranges4, V4) && o.found4.None? ==> UsedUp(p.ranges4, p.services, HandedOut(made))
    requires Searches(svc, p.ranges6, V6) && o.found6.None? ==> UsedUp(p.ranges6, p.services, HandedOut(made))
    ensures Served(svc, made + [u], p.services, HandedOut(made) + u.ips, p.ranges4, p.ranges6)
  {
    hide Scanned, UsedUp, Unpooled, Gives, AddressedTo, DualBlocked;
    forall ranges | UsedUp(ranges, p.services, HandedOut(made))
      ensures UsedUp(ranges, p.services, HandedOut(made) + u.ips)
    {
      UsedUpGrows(ranges, p.services, HandedOut(made), u.ips);
    }
    assert u in made + [u];
    assert PoolOf(p.ranges4, p.ranges6, V4) == p.ranges4 && PoolOf(p.ranges4, p.ranges6, V6) == p.ranges6;
  }

  lemma {:induction false} NotOwned(p: Pass, i: nat, made: seq<Update>)
    requires i < |p.services| && p.ServedTo(i, made) && !ShouldAllocate(p.services[i], p.isDefault)
    ensures p.ServedTo(i + 1, made)
  {
    hide Served;
  }

  lemma {:induction false} NoPool(p: Pass, i: nat, made: seq<Update>)
    requires i < |p.services| && p.ServedTo(i, made) && Unpooled(p.services[i], p.ranges4 != [], p.ranges6 != [])
    ensures p.ServedTo(i + 1, made)
  {
    hide UsedUp, DualBlocked, Unpooled;
    assert Served(p.services[i], made, p.services, HandedOut(made), p.ranges4, p.ranges6);
  }

  /** The searches behind a plan. */
  lemma {:induction false} PlanOutcome(
    p: Pass, svc: LbService, taken4: seq<IpAddr>, taken6: seq<IpAddr>, r: Result<AllocationPlan, AllocError>,
    was4: Option<Cursor>, now4: Option<Cursor>, was6: Option<Cursor>, now6: Option<Cursor>)
    returns (o: Outcome)
    requires !(r.Err? && r.error.NoRanges?) ==>
               exists found4, found6 ::
                 && Searched(svc, p.ranges4, V4, taken4, was4, now4, found4)
                 && Searched(svc, p.ranges6, V6, taken6, was6, now6, found6)
                 && Granted(svc, r, Searches(svc, p.ranges4, V4), Searches(svc, p.ranges6, V6), found4, found6)
    ensures o.r == r
    ensures !(r.Err? && r.error.NoRanges?) ==> Planned(p, svc, taken4, taken6, o)
  {
    hide Searched, Granted;
    o := Outcome(r, was4, now4, was6, now6, None, None);
    if !(r.Err? && r.error.NoRanges?) {
      var found4, found6 :|
        && Searched(svc, p.ranges4, V4, taken4, was4, now4, found4)
        && Searched(svc, p.ranges6, V6, taken6, was6, now6, found6)
        && Granted(svc, r, Searches(svc, p.ranges4, V4), Searches(svc, p.ranges6, V6), found4, found6);
      o := Outcome(r, was4, now4, was6, now6, found4, found6);
    }
  }

  // ---- what a pass promises, on the fields of the services ---------------------------------------------

  /** A LoadBalancer service of the allocator's own class, or, when it is the cluster's default, of the default
      class or none. */
  ghost predicate Owned(svc: LbService, isDefault: bool) {
    && svc.isLoadBalancer
    && (|| svc.class_ == Some("kube-router")
        || (isDefault && (svc.class_ == None || svc.class_ == Some("default"))))
  }

  /** The family is asked for, and no ingress address is of it. */
  ghost predicate Missing(svc: LbService, f: Family) {
    (if f.V4? then svc.wantV4 else svc.wantV6) && forall a :: a in svc.ingressIps ==> a.family != f
  }

  /** Every address of the family's ranges, if there are any, is held by a service or was handed out. */
  ghost predicate Drained(ranges: seq<IpNet>, services: seq<LbService>, made: seq<Update>) {
    forall r, a: IpAddr :: r in ranges && Contains(r, a) ==>
      || (exists svc :: svc in services && (a in svc.externalIps || a in svc.ingressIps))
      || (exists u :: u in made && a in u.ips)
  }

  /** The service was given an address of the family, or could not be: its pool is drained, or it must have
      both families and the other one is held already or drained. */
  ghost predicate Provided(svc: LbService, f: Family, made: seq<Update>, services: seq<LbService>, ranges4: seq<IpNet>, ranges6: seq<IpNet>) {
    || (exists u, a :: u in made && u.namespace == svc.namespace && u.name == svc.name && a in u.ips && a.family == f)
    || Drained(if f.V4? then ranges4 else ranges6, services, made)
    || (svc.requireDual && exists g: Family :: !Missing(svc, g) || Drained(if g.V4? then ranges4 else ranges6, services, made))
  }

  /** The update goes to an owned service, with addresses of families it misses: both for a dual-stack one. */
  ghost predicate Deserved(u: Update, services: seq<LbService>, isDefault: bool) {
    exists svc ::
      && svc in services && Owned(svc, isDefault) && u.namespace == svc.namespace && u.name == svc.name
      && u.ips != [] && (forall a :: a in u.ips ==> Missing(svc, a.family))
      && (svc.requireDual ==> (exists a :: a in u.ips && a.family == V4) && (exists a :: a in u.ips && a.family == V6))
  }

  lemma {:induction false} OwnedMeans(svc: LbService, isDefault: bool)
    ensures forall f :: Missing(svc, f) <==> svc.Lacks(f)
    ensures ShouldAllocate(svc, isDefault) ==> Owned(svc, isDefault)
    ensures Owned(svc, isDefault) && (exists f :: Missing(svc, f)) ==> ShouldAllocate(svc, isDefault)
  {
  }

  lemma {:induction false} DrainedMeans(ranges: seq<IpNet>, services: seq<LbService>, made: seq<Update>)
    ensures UsedUp(ranges, services, HandedOut(made)) <==> Drained(ranges, services, made)
  {
    hide Contains;
    forall a
      ensures a in HandedOut(made) <==> exists u :: u in made && a in u.ips
    {
      HandedOutMembers(made, a);
    }
    assert forall a :: HeldBySome(services, a) <==> exists svc :: svc in services && (a in svc.externalIps || a in svc.ingressIps);
    if UsedUp(ranges, services, HandedOut(made)) {
      forall r, a: IpAddr | r in ranges && Contains(r, a)
        ensures (exists svc :: svc in services && (a in svc.externalIps || a in svc.ingressIps)) || (exists u :: u in made && a in u.ips)
      {
        assert InPool(ranges, a);
      }
    }
  }

  lemma {:induction false} HandedOutMembers(made: seq<Update>, a: IpAddr)
    ensures a in HandedOut(made) <==> exists u :: u in made && a in u.ips
  {
    if made != [] {
      var rest, last := made[..|made|-1], made[|made|-1];
      assert made == rest + [last];
      HandedOutMembers(rest, a);
    }
  }

  lemma {:induction false} WarrantedIsDeserved(u: Update, services: seq<LbService>, isDefault: bool)
    requires Warranted(u, services, isDefault)
    ensures Deserved(u, services, isDefault)
  {
    hide ShouldAllocate, Owned, Missing;
    var svc :| svc in services && ShouldAllocate(svc, isDefault) && AddressedTo(u, svc)
               && (forall f :: Gives(u, f) ==> svc.Lacks(f)) && (svc.requireDual ==> Gives(u, V4) && Gives(u, V6));
    OwnedMeans(svc, isDefault);
    forall a | a in u.ips
      ensures Missing(svc, a.family)
    {
      assert Gives(u, a.family);
    }
  }

  lemma {:induction false} ServedIsProvided(p: Pass, made: seq<Update>, svc: LbService, f: Family)
    requires p.ServedTo(|p.services|, made) && RangesDisjoint(p.ranges4) && RangesDisjoint(p.ranges6)
    requires svc in p.services && Owned(svc, p.isDefault) && Missing(svc, f)
    ensures Provided(svc, f, made, p.services, p.ranges4, p.ranges6)
  {
    hide RangesDisjoint, ShouldAllocate, Owned, Missing, UsedUp, Drained;
    OwnedMeans(svc, p.isDefault);
    DrainedMeans(p.ranges4, p.services, made);
    DrainedMeans(p.ranges6, p.services, made);
    NoRangesDrained(p.services, made);
    var k :| 0 <= k < |p.services| && p.services[k] == svc;
    assert Served(svc, made, p.services, HandedOut(made), p.ranges4, p.ranges6);
    assert svc.Lacks(f) && svc.Wants(f);
    var pool := PoolOf(p.ranges4, p.ranges6, f);
    assert !Searches(svc, PoolOf(p.ranges4, p.ranges6, V4), V4) || !Searches(svc, PoolOf(p.ranges4, p.ranges6, V6), V6)
           || !Unpooled(svc, p.ranges4 != [], p.ranges6 != []);
    if pool == [] || UsedUp(pool, p.services, HandedOut(made)) {
      assert Drained(if f.V4? then p.ranges4 else p.ranges6, p.services, made);
    } else if u :| u in made && AddressedTo(u, svc) && Gives(u, f) {
      var a :| a in u.ips && a.family == f;
    } else if DualBlocked(svc, p.services, HandedOut(made), p.ranges4, p.ranges6) {
      var g :| !Searches(svc, PoolOf(p.ranges4, p.ranges6, g), g) || UsedUp(PoolOf(p.ranges4, p.ranges6, g), p.services, HandedOut(made));
      assert !Missing(svc, g) || Drained(if g.V4? then p.ranges4 else p.ranges6, p.services, made);
    }
  }

  lemma {:induction false} Promised(p: Pass, taken4: seq<IpAddr>, taken6: seq<IpAddr>, made: seq<Update>)
    requires p.Sound(taken4, taken6, made)
    ensures forall u :: u in made ==> Deserved(u, p.services, p.isDefault)
    ensures forall svc, a :: svc in p.services && a in HandedOut(made) ==> a !in svc.externalIps && a !in svc.ingressIps
    ensures p.ServedTo(|p.services|, made) && RangesDisjoint(p.ranges4) && RangesDisjoint(p.ranges6) ==>
              forall svc, f :: svc in p.services && Owned(svc, p.isDefault) && Missing(svc, f) ==>
                                 Provided(svc, f, made, p.services, p.ranges4, p.ranges6)
  {
    hide RangesDisjoint, Avoids, Owned, Missing, Provided, Warranted, Deserved, InPool, Pass.ServedTo;
    forall u | u in made
      ensures Deserved(u, p.services, p.isDefault)
    {
      WarrantedIsDeserved(u, p.services, p.isDefault);
    }
    if p.ServedTo(|p.services|, made) && RangesDisjoint(p.ranges4) && RangesDisjoint(p.ranges6) {
      forall svc, f | svc in p.services && Owned(svc, p.isDefault) && Missing(svc, f)
        ensures Provided(svc, f, made, p.services, p.ranges4, p.ranges6)
      {
        ServedIsProvided(p, made, svc, f);
      }
    }
  }

  lemma {:induction false} NoRangesDrained(services: seq<LbService>, made: seq<Update>)
    ensures Drained([], services, made)
  {
  }

  /** The bookkeeping of one pass: each new address joins its family's list. */
  method Push(a4: seq<IpAddr>, a6: seq<IpAddr>, ips: seq<IpAddr>) returns (b4: seq<IpAddr>, b6: seq<IpAddr>)
    ensures Extended(b4, a4, ips, V4) && Extended(b6, a6, ips, V6)
  {
    b4, b6 := a4, a6;
    for j := 0 to |ips|
      invariant Extended(b4, a4, ips[..j], V4) && Extended(b6, a6, ips[..j], V6)
    {
      assert ips[..j+1] == ips[..j] + [ips[j]];
      if ips[j].family == V4 {
        b4 := b4 + [ips[j]];
      } else {
        b6 := b6 + [ips[j]];
      }
    }
    assert ips[..|ips|] == ips;
  }

  /** The Service status at the API server, as the updates asked of it in order. */
  class StatusUpdater {
    var asked: seq<Update>

    constructor ()
      ensures asked == []
    {
      asked := [];
    }

    /** `append_ingress`; `accepts` is the API server's answer. */
    method AppendIngress(u: Update, accepts: bool) returns (ok: bool)
      modifies this
      ensures ok == accepts && asked == old(asked) + [u]
    {
      asked := asked + [u];
      ok := accepts;
    }
  }

  class LbAllocator {
    const v4: IpRanges
    const v6: IpRanges
    const isDefault: bool
    const updater: StatusUpdater

    ghost predicate Valid()
      reads v4, v6
    {
      v4.Valid() && v6.Valid() && v4.family == V4 && v6.family == V6 && v4 != v6
    }

    constructor (v4: IpRanges, v6: IpRanges, isDefault: bool, updater: StatusUpdater)
      requires v4.Valid() && v6.Valid() && v4.family == V4 && v6.family == V6 && v4 != v6
      ensures this.v4 == v4 && this.v6 == v6 && this.isDefault == isDefault && this.updater == updater
      ensures Valid()
    {
      this.v4, this.v6, this.isDefault, this.updater := v4, v6, isDefault, updater;
    }

    ghost function PassOver(services: seq<LbService>): Pass {
      Pass(services, isDefault, v4.ranges, v6.ranges)
    }

    /** What the loop of `reconcile` asks for service `i`: nothing, or one update that keeps the pass sound. */
    method Serve(services: seq<LbService>, i: nat, a4: seq<IpAddr>, a6: seq<IpAddr>, ghost made: seq<Update>)
      returns (update: Option<Update>, b4: seq<IpAddr>, b6: seq<IpAddr>)
      requires Valid() && i < |services|
      requires PassOver(services).Sound(a4, a6, made) && PassOver(services).ServedTo(i, made)
      modifies v4, v6
      ensures Valid()
      ensures var now := if update.Some? then made + [update.value] else made;
              PassOver(services).Sound(b4, b6, now) && PassOver(services).ServedTo(i + 1, now)
    {
      hide Searched, Granted, Unpooled, ShouldAllocate, Pass.Sound, Pass.ServedTo, Extended, Planned, SingleFamily;
      var svc := services[i];
      update, b4, b6 := None, a4, a6;
      ghost var p := PassOver(services);
      if !ShouldAllocate(svc, isDefault) {
        NotOwned(p, i, made);
        return;
      }
      ghost var was4, was6 := CursorOf(v4), CursorOf(v6);
      var planned := PlanAllocation(svc, v4, v6, a4, a6);
      ghost var o := PlanOutcome(p, svc, a4, a6, planned, was4, CursorOf(v4), was6, CursorOf(v6));
      if planned.Err? {
        if planned.error.NoRanges? {
          NoPool(p, i, made);
        } else {
          NotUpdated(p, i, a4, a6, made, o);
        }
        return;
      }
      var ips := planned.value.Ips();
      if |ips| == 0 {
        NotUpdated(p, i, a4, a6, made, o);
        return;
      }
      b4, b6 := Push(a4, a6, ips);
      update := Some(Update(svc.namespace, svc.name, ips));
      Updated(p, i, a4, a6, b4, b6, made, o, update.value);
    }

    /** `LbAllocator::reconcile` on a snapshot of the services; `accepts` answers the status updates. */
    method Reconcile(services: seq<LbService>, accepts: Update -> bool) returns (r: Result<nat, string>, ghost made: seq<Update>)
      requires Valid()
      modifies v4, v6, updater
      ensures Valid()
      ensures updater.asked == old(updater.asked) + made
      ensures Fresh(HandedOut(made), services, v4.ranges, v6.ranges)
      ensures forall u :: u in made ==> Warranted(u, services, isDefault)
      ensures r.Ok? ==> r.value == |made| && forall u :: u in made ==> accepts(u)
      ensures r.Err? ==> made != [] && !accepts(made[|made|-1])
      ensures r.Ok? ==> PassOver(services).ServedTo(|services|, made)
      ensures forall u :: u in made ==> Deserved(u, services, isDefault)
      ensures forall svc, a :: svc in services && a in HandedOut(made) ==> a !in svc.externalIps && a !in svc.ingressIps
      ensures r.Ok? && RangesDisjoint(v4.ranges) && RangesDisjoint(v6.ranges) ==>
                forall svc, f :: svc in services && Owned(svc, isDefault) && Missing(svc, f) ==>
                                   Provided(svc, f, made, services, v4.ranges, v6.ranges)
    {
      hide Warranted, Fresh, Collects, Avoids, Pass.ServedTo, SingleFamily, HandedOut;
      made := [];
      var a4, a6 := AllocatedIps(services, v4.ranges, v6.ranges);
      SoundAtStart(PassOver(services), a4, a6);
      var updated := 0;
      for i := 0 to |services|
        invariant Valid()
        invariant updater.asked == old(updater.asked) + made && updated == |made|
        invariant PassOver(services).Sound(a4, a6, made) && PassOver(services).ServedTo(i, made)
        invariant forall u :: u in made ==> accepts(u)
      {
        var update: Option<Update>;
        update, a4, a6 := Serve(services, i, a4, a6, made);
        if update.Some? {
          var ok := updater.AppendIngress(update.value, accepts(update.value));
          made := made + [update.value];
          if !ok {
            Promised(PassOver(services), a4, a6, made);
            return Err("status update"), made;
          }
          updated := updated + 1;
        }
      }
      Promised(PassOver(services), a4, a6, made);
      r := Ok(updated);
    }
  }
}
