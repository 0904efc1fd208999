// Destinations drained and awaiting deletion.

module Graceful {
  import opened ServiceModel
  import opened Ipvs

  type Time = nat

  datatype PendingRemoval = PendingRemoval(svc: IpvsService, dst: IpvsDestination, deadline: Time) {
    function Where(): Slot {
      SlotOf(svc.KeyOf(), dst)
    }
  }

  /** No slot is queued twice. */
  ghost predicate Distinct(items: seq<PendingRemoval>) {
    forall i, j :: 0 <= i < j < |items| ==> items[i].Where() != items[j].Where()
  }

  /** The queue by slot; its order never matters. */
  ghost function Deadlines(items: seq<PendingRemoval>): map<Slot, Time> {
    if items == [] then map[] else Deadlines(items[..|items|-1])[items[|items|-1].Where() := items[|items|-1].deadline]
  }

  lemma {:induction false} DeadlinesPush(items: seq<PendingRemoval>, p: PendingRemoval)
    ensures Deadlines(items + [p]) == Deadlines(items)[p.Where() := p.deadline]
  {
    assert (items + [p])[..|items|] == items;
  }

  lemma {:induction false} QueuedIff(items: seq<PendingRemoval>, s: Slot)
    ensures s in Deadlines(items) <==> exists p :: p in items && p.Where() == s
  {
    if items != [] {
      var rest, last := items[..|items|-1], items[|items|-1];
      assert items == rest + [last];
      QueuedIff(rest, s);
      assert last in items;
    }
  }

  lemma {:induction false} DeadlineOf(items: seq<PendingRemoval>, i: nat)
    requires Distinct(items) && i < |items|
    ensures items[i].Where() in Deadlines(items) && Deadlines(items)[items[i].Where()] == items[i].deadline
  {
    var n := |items| - 1;
    if i < n {
      DeadlineOf(items[..n], i);
      assert items[i].Where() != items[n].Where();
    }
  }

  class GracefulQueue {
    var items: seq<PendingRemoval>

    ghost predicate Valid()
      reads this
    {
      Distinct(items)
    }

    constructor ()
      ensures Valid() && items == []
    {
      items := [];
    }

    /** `enqueue`: ignored if already queued, which keeps the first deadline. */
    method Enqueue(svc: IpvsService, dst: IpvsDestination, deadline: Time)
      requires Valid()
      modifies this
      ensures Valid()
      ensures var s := SlotOf(svc.KeyOf(), dst);
              Deadlines(items) == if s in Deadlines(old(items)) then Deadlines(old(items)) else Deadlines(old(items))[s := deadline]
    {
      var p := PendingRemoval(svc, dst, deadline);
      QueuedIff(items, p.Where());
      for i := 0 to |items|
        invariant items == old(items)
        invariant forall j :: 0 <= j < i ==> items[j].Where() != p.Where()
      {
        if items[i].Where() == p.Where() {
          assert items[i] in items;
          return;
        }
      }
      DeadlinesPush(items, p);
      items := items + [p];
    }

    /** `take`. */
    method Take() returns (taken: seq<PendingRemoval>)
      requires Valid()
      modifies this
      ensures Valid() && items == [] && taken == old(items)
    {
      taken := items;
      items := [];
    }

    /** `requeue`, of something that was taken. */
    method Requeue(p: PendingRemoval)
      requires Valid() && p.Where() !in Deadlines(items)
      modifies this
      ensures Valid()
      ensures items == old(items) + [p] && Deadlines(items) == Deadlines(old(items))[p.Where() := p.deadline]
    {
      DeadlinesPush(items, p);
      forall i | 0 <= i < |items|
        ensures items[i].Where() != p.Where()
      {
        DeadlineOf(items, i);
      }
      items := items + [p];
    }
  }
}
