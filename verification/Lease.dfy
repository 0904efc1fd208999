// One attempt on the allocator's coordination Lease: the decision, the guarded write, and the
// elector that turns attempts into leadership.

module Lease {
  import opened Wrappers

  type Id = string

  /** Microseconds of the one clock; the Lease stores its times in this unit. */
  type Time = nat

  const SECOND: nat := 1_000_000
  const LEASE_DURATION: nat := 15

  /** `as_second`. */
  function Seconds(t: Time): nat {
    t / SECOND
  }

  /** The fields of the Lease object the protocol reads; any of them may be missing. */
  datatype LeaseObject = LeaseObject(version: nat, holder: Option<Id>, renew: Option<Time>, duration: Option<int>)

  // ---- the decision -----------------------------------------------------------------------

  predicate Expired(l: LeaseObject, now: Time) {
    l.renew.None? || Seconds(now) - Seconds(l.renew.value) >= if l.duration.Some? then l.duration.value else LEASE_DURATION
  }

  /** `held_by_other_and_fresh`. */
  predicate HeldByOtherAndFresh(existing: Option<LeaseObject>, me: Id, now: Time) {
    match existing
    case None => false
    case Some(l) =>
      match l.holder
      case None => false
      case Some(h) => h != me && !Expired(l, now)
  }

  /** `can_acquire`. */
  predicate CanAcquire(holder: Option<Id>, expired: bool, me: Id) {
    match holder
    case None => true
    case Some(h) => h == me || expired
  }

  /** The attempt goes on exactly when the pure rule lets this identity take the lease. */
  lemma {:induction false} AttemptProceedsIff(existing: Option<LeaseObject>, me: Id, now: Time)
    ensures !HeldByOtherAndFresh(existing, me, now) <==>
            existing.None? || CanAcquire(existing.value.holder, Expired(existing.value, now), me)
  {
  }

  /** Fresh means: another holder, a renewal, and fewer whole seconds since it than the lease lasts, 15 if it
      does not say. */
  lemma {:induction false} FreshIff(existing: Option<LeaseObject>, me: Id, now: Time)
    ensures HeldByOtherAndFresh(existing, me, now) <==>
            && existing.Some? && existing.value.holder.Some? && existing.value.holder.value != me
            && existing.value.renew.Some?
            && now / 1_000_000 - existing.value.renew.value / 1_000_000
               < if existing.value.duration.Some? then existing.value.duration.value else 15
  {
  }

  /** Whole seconds are compared, so an expired 15 s lease may be only just over 14 s old. */
  lemma {:induction false} ExpiredIsOverFourteen(renew: Time, now: Time)
    requires Seconds(now) - Seconds(renew) >= LEASE_DURATION
    ensures now > renew + 14 * SECOND
  {
  }

  // ---- the write ----------------------------------------------------------------------------

  /** What the API server does with a write that expects `expected` (a version, or no object at all). */
  predicate WriteAccepted(lease: Option<LeaseObject>, expected: Option<nat>) {
    match expected
    case None => lease.None?
    case Some(v) => lease.Some? && lease.value.version == v
  }

  function Written(stamp: nat, me: Id, now: Time): LeaseObject {
    LeaseObject(stamp, Some(me), Some(now), Some(LEASE_DURATION))
  }

  function Expects(existing: Option<LeaseObject>): Option<nat> {
    if existing.Some? then Some(existing.value.version) else None
  }

  /** The Lease resource at the API server; `stamp` is the last resource version it gave out. */
  class LeaseApi {
    var lease: Option<LeaseObject>
    var stamp: nat

    predicate Valid()
      reads this
    {
      lease.Some? ==> lease.value.version <= stamp
    }

    constructor (lease: Option<LeaseObject>, stamp: nat)
      ensures this.lease == lease && this.stamp == stamp
    {
      this.lease, this.stamp := lease, stamp;
    }

    /** `Api::replace`: refused unless the object is still the one that was fetched. */
    method Replace(fetched: LeaseObject, holder: Id, now: Time) returns (ok: bool)
      requires Valid()
      modifies this
      ensures Valid()
      ensures ok == WriteAccepted(old(lease), Some(fetched.version))
      ensures if ok then stamp == old(stamp) + 1 && lease == Some(Written(stamp, holder, now))
              else lease == old(lease) && stamp == old(stamp)
    {
      ok := lease.Some? && lease.value.version == fetched.version;
      if ok {
        stamp := stamp + 1;
        lease := Some(Written(stamp, holder, now));
      }
    }

    /** `Api::create`: refused when the object exists. */
    method Create(holder: Id, now: Time) returns (ok: bool)
      requires Valid()
      modifies this
      ensures Valid()
      ensures ok == WriteAccepted(old(lease), None)
      ensures if ok then stamp == old(stamp) + 1 && lease == Some(Written(stamp, holder, now))
              else lease == old(lease) && stamp == old(stamp)
    {
      ok := lease.None?;
      if ok {
        stamp := stamp + 1;
        lease := Some(Written(stamp, holder, now));
      }
    }
  }

  class KubeLease {
    const api: LeaseApi
    const identity: Id

    constructor (api: LeaseApi, identity: Id)
      ensures this.api == api && this.identity == identity
    {
      this.api, this.identity := api, identity;
    }

    /** `KubeLease::acquire_or_renew`. The clock reading and the fetched object are parameters: other nodes
        act between the fetch and the write, so `api` need no longer hold what was fetched. */
    method AcquireOrRenew(now: Time, fetched: Result<Option<LeaseObject>, string>) returns (r: Result<bool, string>)
      requires api.Valid()
      modifies api
      ensures api.Valid()
      ensures r == Ok(true) <==> fetched.Ok? && !HeldByOtherAndFresh(fetched.value, identity, now)
                                 && WriteAccepted(old(api.lease), Expects(fetched.value))
      ensures r == Ok(false) <==> fetched.Ok? && HeldByOtherAndFresh(fetched.value, identity, now)
      ensures if r == Ok(true) then api.stamp == old(api.stamp) + 1 && api.lease == Some(Written(api.stamp, identity, now))
              else api.lease == old(api.lease) && api.stamp == old(api.stamp)
    {
      if fetched.Err? {
        return Err("get");
      }
      var existing := fetched.value;
      var heldByOtherAndFresh := false;
      if existing.Some? {
        var l := existing.value;
        if l.holder.Some? && l.holder.value != identity {
          if l.renew.Some? {
            var dur := if l.duration.Some? then l.duration.value else LEASE_DURATION;
            heldByOtherAndFresh := Seconds(now) - Seconds(l.renew.value) < dur;
          }
        }
      }
      if heldByOtherAndFresh {
        return Ok(false);
      }
      var ok: bool;
      if existing.Some? {
        ok := api.Replace(existing.value, identity, now);
      } else {
        ok := api.Create(identity, now);
      }
      r := if ok then Ok(true) else Err("write");
    }
  }

  class LeaderElector {
    var isLeader: bool

    constructor ()
      ensures !isLeader
    {
      isLeader := false;
    }

    /** `LeaderElector::tick` on the outcome of one attempt: an error is not leading. */
    method Tick(outcome: Result<bool, string>) returns (transition: Option<bool>)
      modifies this
      ensures isLeader <==> outcome == Ok(true)
      ensures transition == if isLeader != old(isLeader) then Some(isLeader) else None
    {
      var held := outcome.Ok? && outcome.value;
      if held != isLeader {
        isLeader := held;
        transition := Some(held);
      } else {
        transition := None;
      }
    }
  }
}
