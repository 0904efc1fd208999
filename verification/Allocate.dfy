// Which services get LoadBalancer addresses, and what one service gets.

module Allocate {
  import opened Wrappers
  import opened Net
  import opened Pools

  datatype LbService = LbService(
    namespace: string,
    name: string,
    isLoadBalancer: bool,
    class_: Option<string>,
    wantV4: bool,
    wantV6: bool,
    requireDual: bool,
    externalIps: seq<IpAddr>,
    ingressIps: seq<IpAddr>)
  {
    predicate Wants(f: Family) {
      if f.V4? then wantV4 else wantV6
    }

    /** `have_families`, for one of the two. */
    predicate Has(f: Family) {
      exists a | a in ingressIps :: a.family == f
    }

    /** An address of the family is asked for and not there. */
    predicate Lacks(f: Family) {
      Wants(f) && !Has(f)
    }
  }

  const LOAD_BALANCER_CLASS := "kube-router"

  /** `check_class`. */
  predicate CheckClass(class_: Option<string>, isDefault: bool) {
    match class_
    case Some(c) => c == LOAD_BALANCER_CLASS || (c == "default" && isDefault)
    case None => isDefault
  }

  /** `needs_ingress`. */
  predicate NeedsIngress(svc: LbService) {
    svc.wantV4 != svc.Has(V4) || svc.wantV6 != svc.Has(V6)
  }

  /** `should_allocate`. */
  predicate ShouldAllocate(svc: LbService, isDefault: bool) {
    svc.isLoadBalancer && CheckClass(svc.class_, isDefault) && NeedsIngress(svc)
  }

  datatype AllocError = NoRanges(why: string) | DualStackUnavailable | Exhausted

  datatype AllocationPlan = AllocationPlan(v4: Option<IpAddr>, v6: Option<IpAddr>) {
    /** `ips`. */
    function Ips(): seq<IpAddr> {
      (if v4.Some? then [v4.value] else []) + (if v6.Some? then [v6.value] else [])
    }

    predicate IsEmpty() {
      v4.None? && v6.None?
    }
  }

  /** The service cannot be served for lack of a pool. */
  predicate Unpooled(svc: LbService, can4: bool, can6: bool) {
    || (svc.requireDual && !(can4 && can6))
    || (svc.wantV4 && !can4 && !svc.wantV6)
    || (svc.wantV6 && !can6 && !svc.wantV4)
  }

  /** A pool is searched when it exists and its family is lacking. */
  predicate Searches(svc: LbService, ranges: seq<IpNet>, f: Family) {
    svc.Lacks(f) && ranges != []
  }

  /** A cursor position; none without ranges. */
  ghost function CursorOf(pool: IpRanges): Option<Cursor>
    reads pool
  {
    if pool.currentIp.None? then None else Some(pool.Position())
  }

  /** A pool was searched with this result, from the old cursor to the new one, or left alone. */
  ghost predicate Searched(
    svc: LbService, ranges: seq<IpNet>, f: Family, taken: seq<IpAddr>, was: Option<Cursor>, now: Option<Cursor>, found: Option<IpAddr>)
  {
    if Searches(svc, ranges, f) then
      && was.Some? && now.Some? && CursorValid(ranges, was.value)
      && Scanned(ranges, was.value, taken, found, now.value)
    else
      now == was && found.None?
  }

  /** What the service gets, by the outcomes of its searches: all of a dual-stack pair or nothing. */
  ghost predicate Granted(svc: LbService, r: Result<AllocationPlan, AllocError>, search4: bool, search6: bool, found4: Option<IpAddr>, found6: Option<IpAddr>) {
    match r
    case Ok(plan) =>
      && plan.v4 == found4 && plan.v6 == found6
      && (plan.IsEmpty() ==> !search4 && !search6)
      && (svc.requireDual && !plan.IsEmpty() ==> plan.v4.Some? && plan.v6.Some?)
    case Err(DualStackUnavailable) => svc.requireDual && (found4.Some? != found6.Some?)
    case Err(Exhausted) => (search4 || search6) && found4.None? && found6.None?
    case Err(NoRanges(_)) => false
  }

  /** `plan_allocation`. */
  method PlanAllocation(svc: LbService, v4: IpRanges, v6: IpRanges, taken4: seq<IpAddr>, taken6: seq<IpAddr>)
    returns (r: Result<AllocationPlan, AllocError>)
    requires v4.Valid() && v6.Valid() && v4 != v6
    modifies v4, v6
    ensures v4.Valid() && v6.Valid()
    ensures (r.Err? && r.error.NoRanges?) <==> Unpooled(svc, v4.ranges != [], v6.ranges != [])
    ensures Unpooled(svc, v4.ranges != [], v6.ranges != []) ==> CursorOf(v4) == old(CursorOf(v4)) && CursorOf(v6) == old(CursorOf(v6))
    ensures !Unpooled(svc, v4.ranges != [], v6.ranges != []) ==>
              exists found4, found6 ::
                && Searched(svc, v4.ranges, V4, taken4, old(CursorOf(v4)), CursorOf(v4), found4)
                && Searched(svc, v6.ranges, V6, taken6, old(CursorOf(v6)), CursorOf(v6), found6)
                && Granted(svc, r, Searches(svc, v4.ranges, V4), Searches(svc, v6.ranges, V6), found4, found6)
  {
    hide Scanned, CursorValid, SingleFamily, CheckClass;
    var canV4, canV6 := |v4.ranges| != 0, |v6.ranges| != 0;
    if svc.requireDual && !canV4 {
      return Err(NoRanges("IPv4 required"));
    }
    if svc.requireDual && !canV6 {
      return Err(NoRanges("IPv6 required"));
    }
    if svc.wantV4 && !canV4 && !svc.wantV6 {
      return Err(NoRanges("no IPv4 ranges"));
    }
    if svc.wantV6 && !canV6 && !svc.wantV4 {
      return Err(NoRanges("no IPv6 ranges"));
    }
    var have4, have6 := svc.Has(V4), svc.Has(V6);
    var plan := AllocationPlan(None, None);
    var err4: Option<AllocError>, err6: Option<AllocError> := None, None;
    ghost var c4, c6 := CursorOf(v4), CursorOf(v6);
    var found4: Option<IpAddr>, found6: Option<IpAddr> := None, None;
    if svc.wantV4 && !have4 && canV4 {
      found4 := v4.NextFreeIp(taken4);
      if found4.Some? {
        plan := plan.(v4 := found4);
      } else {
        err4 := Some(Exhausted);
      }
    }
    assert Searched(svc, v4.ranges, V4, taken4, c4, CursorOf(v4), found4);
    if svc.wantV6 && !have6 && canV6 {
      found6 := v6.NextFreeIp(taken6);
      if found6.Some? {
        plan := plan.(v6 := found6);
      } else {
        err6 := Some(Exhausted);
      }
    }
    assert Searched(svc, v6.ranges, V6, taken6, c6, CursorOf(v6), found6);
    if plan.IsEmpty() && err4.None? && err6.None? {
      r := Ok(plan);
    } else if plan.IsEmpty() {
      r := Err(if err4.Some? then err4.value else err6.value);
    } else if svc.requireDual && (plan.v4.None? || plan.v6.None?) {
      r := Err(DualStackUnavailable);
    } else {
      r := Ok(plan);
    }
    assert Granted(svc, r, Searches(svc, v4.ranges, V4), Searches(svc, v6.ranges, V6), found4, found6);
  }

  /** A dual-stack service is served exactly when it starts with neither family and both searches succeed. */
  lemma {:induction false} DualServedIff(
    svc: LbService, r: Result<AllocationPlan, AllocError>, ranges4: seq<IpNet>, ranges6: seq<IpNet>, taken4: seq<IpAddr>, taken6: seq<IpAddr>,
    was4: Option<Cursor>, now4: Option<Cursor>, was6: Option<Cursor>, now6: Option<Cursor>, found4: Option<IpAddr>, found6: Option<IpAddr>)
    requires svc.requireDual && svc.wantV4 && svc.wantV6 && !(svc.Has(V4) && svc.Has(V6))
    requires Searched(svc, ranges4, V4, taken4, was4, now4, found4) && Searched(svc, ranges6, V6, taken6, was6, now6, found6)
    requires Granted(svc, r, Searches(svc, ranges4, V4), Searches(svc, ranges6, V6), found4, found6)
    requires !Unpooled(svc, ranges4 != [], ranges6 != [])
    ensures r.Ok? <==> !svc.Has(V4) && !svc.Has(V6) && found4.Some? && found6.Some?
    ensures r.Ok? ==> |r.value.Ips()| == 2
    ensures svc.Has(V4) || svc.Has(V6) ==> r.Err?
  {
    hide Scanned;
  }
}
