// Leader election among any number of nodes: every interleaving of clock readings, fetches, guarded
// writes, lost replies, late writes and crashes.

module Election {
  import opened Wrappers
  import opened Lease

  /** A write on its way to the API server. `serial` tells the attempts of one node apart. */
  datatype Request = Request(id: Id, serial: nat, now: Time, expected: Option<nat>)

  datatype Phase =
    | Idle
    | Started(now: Time)
    | Fetched(now: Time, seen: Option<LeaseObject>)
    | Waiting(request: Request)

  /** `renewed` is the clock reading of the node's last successful attempt. */
  datatype NodeState = NodeState(phase: Phase, serial: nat, leader: bool, renewed: Time, lastRead: Time)

  /** `sent` are the writes the server has not handled, `applied` all those it ever accepted: either may
      happen after the node has given up waiting. */
  datatype State = State(
    clock: Time,
    lease: Option<LeaseObject>,
    stamp: nat,
    nodes: map<Id, NodeState>,
    sent: set<Request>,
    applied: set<Request>)

  /** Any nodes, any lease left over from before. */
  ghost predicate Init(s: State) {
    && s.sent == {} && s.applied == {}
    && (s.lease.Some? ==> s.lease.value.version <= s.stamp)
    && (forall i :: i in s.nodes ==> s.nodes[i].phase.Idle? && !s.nodes[i].leader && s.nodes[i].lastRead <= s.clock)
  }

  function SetNode(s: State, i: Id, n: NodeState): State
    requires i in s.nodes
  {
    s.(nodes := s.nodes[i := n])
  }

  datatype Step =
    | Pass(to: Time)
    | ReadClock(i: Id)
    | Get(i: Id)
    | GiveWay(i: Id)
    | Send(i: Id)
    | Accept(r: Request)
    | Refuse(r: Request)
    | Win(i: Id)
    | Fail(i: Id)

  ghost predicate Enabled(s: State, e: Step) {
    match e
    case Pass(to) => s.clock <= to
    case ReadClock(i) => i in s.nodes && s.nodes[i].phase.Idle?
    case Get(i) => i in s.nodes && s.nodes[i].phase.Started?
    case GiveWay(i) =>
      i in s.nodes && s.nodes[i].phase.Fetched? && HeldByOtherAndFresh(s.nodes[i].phase.seen, i, s.nodes[i].phase.now)
    case Send(i) =>
      i in s.nodes && s.nodes[i].phase.Fetched? && !HeldByOtherAndFresh(s.nodes[i].phase.seen, i, s.nodes[i].phase.now)
    case Accept(r) => r in s.sent && WriteAccepted(s.lease, r.expected)
    case Refuse(r) => r in s.sent
    case Win(i) => i in s.nodes && s.nodes[i].phase.Waiting? && s.nodes[i].phase.request in s.applied
    case Fail(i) => i in s.nodes
  }

  /** `Fail` is an error, a timeout or a crash at any point: the node is then not leading. */
  function Next(s: State, e: Step): State
    requires Enabled(s, e)
  {
    match e
    case Pass(to) => s.(clock := to)
    case ReadClock(i) =>
      var n := s.nodes[i];
      SetNode(s, i, n.(phase := Started(s.clock), serial := n.serial + 1, lastRead := s.clock))
    case Get(i) =>
      var n := s.nodes[i];
      SetNode(s, i, n.(phase := Fetched(n.phase.now, s.lease)))
    case GiveWay(i) =>
      SetNode(s, i, s.nodes[i].(phase := Idle, leader := false))
    case Send(i) =>
      var n := s.nodes[i];
      var r := Request(i, n.serial, n.phase.now, Expects(n.phase.seen));
      SetNode(s, i, n.(phase := Waiting(r))).(sent := s.sent + {r})
    case Accept(r) =>
      s.(sent := s.sent - {r}, applied := s.applied + {r}, stamp := s.stamp + 1,
         lease := Some(Written(s.stamp + 1, r.id, r.now)))
    case Refuse(r) => s.(sent := s.sent - {r})
    case Win(i) =>
      var n := s.nodes[i];
      SetNode(s, i, n.(phase := Idle, leader := true, renewed := n.phase.request.now))
    case Fail(i) =>
      SetNode(s, i, s.nodes[i].(phase := Idle, leader := false))
  }

  /** Every state along some run of enabled steps. */
  ghost predicate IsRun(states: seq<State>, steps: seq<Step>) {
    && |states| == |steps| + 1
    && Init(states[0])
    && forall k :: 0 <= k < |steps| ==> Follows(states, steps, k)
  }

  ghost predicate Follows(states: seq<State>, steps: seq<Step>, k: nat)
    requires k < |steps| && |states| == |steps| + 1
  {
    Enabled(states[k], steps[k]) && states[k+1] == Next(states[k], steps[k])
  }

  // ---- the invariant ------------------------------------------------------------------------

  const GAP: nat := 14 * SECOND

  /** The lease is as this run wrote it; before the first accepted write it is anything. */
  ghost predicate LeaseOfRun(s: State) {
    s.applied != {} ==>
      && s.lease.Some? && s.lease.value.holder.Some? && s.lease.value.renew.Some?
      && s.lease.value.duration == Some(LEASE_DURATION)
      && s.lease.value.renew.value <= s.clock
      && (forall i :: i in s.nodes && s.lease.value.holder == Some(i) ==> s.lease.value.renew.value <= s.nodes[i].lastRead)
  }

  /** The lease records `r` or something newer: renewed by the same node since, or taken over only more
      than 14 s after it. */
  ghost predicate Dominates(l: LeaseObject, r: Request) {
    && l.holder.Some? && l.renew.Some?
    && if l.holder.value == r.id then l.renew.value >= r.now else l.renew.value > r.now + GAP
  }

  /** What a node saw, if it is still what the server holds, lets it write. */
  ghost predicate SeenJustifies(s: State, i: Id, now: Time, expected: Option<nat>) {
    WriteAccepted(s.lease, expected) && s.applied != {} ==>
      && !HeldByOtherAndFresh(s.lease, i, now)
      && OwnRenewalBefore(s, i, now)
  }

  ghost predicate OwnRenewalBefore(s: State, i: Id, now: Time) {
    s.lease.Some? && s.lease.value.holder == Some(i) && s.lease.value.renew.Some? ==> s.lease.value.renew.value <= now
  }

  /** What a node fetched is the server's object whenever the versions agree. */
  ghost predicate SeenIsCurrent(s: State, seen: Option<LeaseObject>) {
    && (seen.Some? ==> seen.value.version <= s.stamp)
    && (WriteAccepted(s.lease, Expects(seen)) ==> s.lease == seen)
  }

  ghost predicate NodeInv(s: State, i: Id)
    requires i in s.nodes
  {
    var n := s.nodes[i];
    && n.lastRead <= s.clock
    && (n.phase.Started? ==> n.phase.now == n.lastRead)
    && (n.phase.Fetched? ==>
          && n.phase.now == n.lastRead && SeenIsCurrent(s, n.phase.seen)
          && (WriteAccepted(s.lease, Expects(n.phase.seen)) && s.applied != {} ==> OwnRenewalBefore(s, i, n.phase.now)))
    && (n.phase.Waiting? ==> n.phase.request.id == i)
    && (n.leader ==> exists r :: r in s.applied && r.id == i && r.now == n.renewed)
  }

  ghost predicate RequestInv(s: State, r: Request) {
    && r.id in s.nodes && r.now <= s.nodes[r.id].lastRead
    && (r.expected.Some? ==> r.expected.value <= s.stamp)
    && SeenJustifies(s, r.id, r.now, r.expected)
  }

  /** Accepted writes of different nodes lie more than 14 s apart. */
  ghost predicate Apart(s: State) {
    forall r, q :: r in s.applied && q in s.applied && r.id != q.id ==> r.now > q.now + GAP || q.now > r.now + GAP
  }

  ghost predicate Inv(s: State) {
    && (s.lease.Some? ==> s.lease.value.version <= s.stamp)
    && LeaseOfRun(s)
    && (forall i :: i in s.nodes ==> NodeInv(s, i))
    && (forall r :: r in s.sent ==> RequestInv(s, r))
    && (forall r :: r in s.applied ==> s.lease.Some? && Dominates(s.lease.value, r))
    && Apart(s)
  }

  lemma {:induction false} InitInv(s: State)
    requires Init(s)
    ensures Inv(s)
  {
  }

  /** The accepted write comes after every earlier one: later for the same node, by more than 14 s for another. */
  lemma {:induction false} AcceptedIsLater(s: State, r: Request, q: Request)
    requires Inv(s) && r in s.sent && WriteAccepted(s.lease, r.expected) && q in s.applied
    ensures if q.id == r.id then r.now >= q.now else r.now > q.now + GAP
  {
    assert RequestInv(s, r) && Dominates(s.lease.value, q);
    var l := s.lease.value;
    if l.holder.value != r.id {
      ExpiredIsOverFourteen(l.renew.value, r.now);
    }
  }

  lemma {:induction false} AcceptKeeps(s: State, r: Request)
    requires Inv(s) && Enabled(s, Accept(r))
    ensures Inv(Next(s, Accept(r)))
  {
    var t := Next(s, Accept(r));
    assert RequestInv(s, r);
    forall q | q in t.applied
      ensures Dominates(t.lease.value, q)
    {
      if q != r {
        AcceptedIsLater(s, r, q);
      }
    }
    forall p, q | p in t.applied && q in t.applied && p.id != q.id
      ensures p.now > q.now + GAP || q.now > p.now + GAP
    {
      if p == r {
        AcceptedIsLater(s, r, q);
      } else if q == r {
        AcceptedIsLater(s, r, p);
      }
    }
    forall i | i in t.nodes
      ensures NodeInv(t, i)
    {
      assert NodeInv(s, i);
    }
    forall q | q in t.sent
      ensures RequestInv(t, q)
    {
      assert RequestInv(s, q);
    }
  }

  lemma {:induction false} NodeStepKeeps(s: State, e: Step)
    requires Inv(s) && Enabled(s, e) && !e.Accept?
    ensures Inv(Next(s, e))
  {
    hide NodeInv, RequestInv;
    NodeStepNodes(s, e);
    NodeStepRequests(s, e);
  }

  lemma {:induction false} NodeStepNodes(s: State, e: Step)
    requires Inv(s) && Enabled(s, e) && !e.Accept?
    ensures forall i :: i in Next(s, e).nodes ==> NodeInv(Next(s, e), i)
  {
    var t := Next(s, e);
    forall i | i in t.nodes
      ensures NodeInv(t, i)
    {
      assert NodeInv(s, i);
    }
  }

  lemma {:induction false} NodeStepRequests(s: State, e: Step)
    requires Inv(s) && Enabled(s, e) && !e.Accept?
    ensures forall q :: q in Next(s, e).sent ==> RequestInv(Next(s, e), q)
  {
    var t := Next(s, e);
    forall q | q in t.sent
      ensures RequestInv(t, q)
    {
      if q in s.sent {
        assert RequestInv(s, q);
      } else {
        assert NodeInv(s, q.id);
      }
    }
  }

  lemma {:induction false} RunInv(states: seq<State>, steps: seq<Step>, k: nat)
    requires IsRun(states, steps) && k < |states|
    ensures Inv(states[k])
  {
    if k == 0 {
      InitInv(states[0]);
    } else {
      RunInv(states, steps, k - 1);
      assert Follows(states, steps, k - 1);
      if steps[k-1].Accept? {
        AcceptKeeps(states[k-1], steps[k-1].r);
      } else {
        NodeStepKeeps(states[k-1], steps[k-1]);
      }
    }
  }

  // ---- safety ---------------------------------------------------------------------------------

  /** The node believes it leads, and its own recorded renewal is at most `bound` old. */
  predicate LeadsWithin(s: State, i: Id, bound: nat) {
    i in s.nodes && s.nodes[i].leader && s.clock <= s.nodes[i].renewed + bound
  }

  ghost predicate OneLeader(s: State, bound: nat) {
    forall i, j :: LeadsWithin(s, i, bound) && LeadsWithin(s, j, bound) ==> i == j
  }

  ghost predicate SafeWithin(bound: nat) {
    forall states, steps, k :: IsRun(states, steps) && 0 <= k < |states| ==> OneLeader(states[k], bound)
  }

  lemma {:induction false} InvMeansOneLeader(s: State, bound: nat)
    requires Inv(s) && bound <= GAP
    ensures OneLeader(s, bound)
  {
    forall i, j | LeadsWithin(s, i, bound) && LeadsWithin(s, j, bound)
      ensures i == j
    {
      assert NodeInv(s, i) && NodeInv(s, j);
      var r :| r in s.applied && r.id == i && r.now == s.nodes[i].renewed;
      var q :| q in s.applied && q.id == j && q.now == s.nodes[j].renewed;
      assert Dominates(s.lease.value, r) && Dominates(s.lease.value, q);
    }
  }

  /** Safety: in every run, no two nodes lead within 14 s of their own renewals. */
  lemma {:induction false} NoTwoLeaders(bound: nat)
    requires bound <= GAP
    ensures SafeWithin(bound)
  {
    forall states, steps, k: nat | IsRun(states, steps) && 0 <= k < |states|
      ensures OneLeader(states[k], bound)
    {
      RunInv(states, steps, k);
      InvMeansOneLeader(states[k], bound);
    }
  }

  /** Over a whole run, renewals accepted from different nodes are recorded more than 14 s apart. */
  lemma {:induction false} TermsApart(states: seq<State>, steps: seq<Step>, k: nat, r: Request, q: Request)
    requires IsRun(states, steps) && k < |states|
    requires r in states[k].applied && q in states[k].applied && r.id != q.id
    ensures r.now > q.now + GAP || q.now > r.now + GAP
  {
    RunInv(states, steps, k);
  }

  // ---- the bound is exact ----------------------------------------------------------------------

  lemma {:induction false} ExtendRun(states: seq<State>, steps: seq<Step>, e: Step) returns (more: seq<State>)
    requires IsRun(states, steps) && Enabled(states[|steps|], e)
    ensures more == states + [Next(states[|steps|], e)]
    ensures IsRun(more, steps + [e])
  {
    more := states + [Next(states[|steps|], e)];
    var all := steps + [e];
    forall k | 0 <= k < |all|
      ensures Follows(more, all, k)
    {
      if k < |steps| {
        assert Follows(states, steps, k);
      }
    }
  }

  const FRESH_NODE := NodeState(Idle, 0, false, 0, 0)
  /** Just before a second ends: the lease's age in whole seconds will be one too many. */
  const LATE_IN_SECOND: Time := SECOND - 1
  const TWO_NODES := State(LATE_IN_SECOND, None, 0, map["a" := FRESH_NODE, "b" := FRESH_NODE], {}, {})

  /** One node acquires, undisturbed: five steps. */
  lemma {:induction false} Acquire(states: seq<State>, steps: seq<Step>, i: Id) returns (states': seq<State>, steps': seq<Step>)
    requires IsRun(states, steps)
    requires var s := states[|steps|];
             i in s.nodes && s.nodes[i].phase.Idle? && !HeldByOtherAndFresh(s.lease, i, s.clock)
    ensures IsRun(states', steps')
    ensures var s, t := states[|steps|], states'[|steps'|];
            && t.clock == s.clock && i in t.nodes && LeadsWithin(t, i, 0)
            && t.nodes[i].renewed == s.clock
            && t.lease.Some? && t.lease.value.holder == Some(i) && t.lease.value.renew == Some(s.clock)
            && t.lease.value.duration == Some(LEASE_DURATION)
            && (forall j :: j != i && j in s.nodes ==> j in t.nodes && t.nodes[j] == s.nodes[j])
  {
    var s0 := states[|steps|];
    var s1 := Next(s0, ReadClock(i));
    var s2 := Next(s1, Get(i));
    var s3 := Next(s2, Send(i));
    var r := s3.nodes[i].phase.request;
    var s4 := Next(s3, Accept(r));
    states' := ExtendRun(states, steps, ReadClock(i));
    steps' := steps + [ReadClock(i)];
    states' := ExtendRun(states', steps', Get(i));
    steps' := steps' + [Get(i)];
    states' := ExtendRun(states', steps', Send(i));
    steps' := steps' + [Send(i)];
    states' := ExtendRun(states', steps', Accept(r));
    steps' := steps' + [Accept(r)];
    states' := ExtendRun(states', steps', Win(i));
    steps' := steps' + [Win(i)];
  }

  /** One microsecond beyond 14 s there is a run with two leaders: a renews late in a second, b takes over
      early in the fifteenth after it. */
  lemma {:induction false} TwoLeadersJustBeyond(bound: nat)
    requires bound > GAP
    ensures !SafeWithin(bound)
  {
    var states, steps := [TWO_NODES], [];
    assert IsRun(states, steps);
    states, steps := Acquire(states, steps, "a");
    var s := states[|steps|];
    var to := 15 * SECOND;
    var states' := ExtendRun(states, steps, Pass(to));
    var steps' := steps + [Pass(to)];
    var t := states'[|steps'|];
    assert t.nodes["b"].phase.Idle?;
    assert Expired(t.lease.value, t.clock);
    var states'', steps'' := Acquire(states', steps', "b");
    var u := states''[|steps''|];
    assert u.nodes["a"] == t.nodes["a"];
    assert LeadsWithin(u, "a", bound) && LeadsWithin(u, "b", bound);
    assert "a" != "b";
    assert IsRun(states'', steps'') && !OneLeader(states''[|steps''|], bound);
  }

  /** 14 s is the exact bound, and not the 15 s of the lease duration. */
  lemma {:induction false} SafetyBoundExact(bound: nat)
    ensures SafeWithin(bound) <==> bound <= 14_000_000
  {
    if bound <= GAP {
      NoTwoLeaders(bound);
    } else {
      TwoLeadersJustBeyond(bound);
    }
  }
}
