// Runs of successful passes from an empty IPVS table: convergence, draining, and what the cheap
// incremental pass and the full pass have in common.

module SyncRuns {
  import opened Wrappers
  import opened Net
  import opened ServiceModel
  import opened Ipvs
  import opened ServiceSync

  // ---- the invariant ----------------------------------------------------------------------------

  /** The kernel has what was applied last: the services as they were, the destinations at whatever weight. */
  ghost predicate Present(st: State) {
    && (forall k :: k in st.applied ==> Look(st.services, k) == Some(st.applied[k].svc))
    && (forall s :: Listed(st.applied, s).Some? ==> s in st.dests)
  }

  /** The kernel holds exactly what was applied last. */
  ghost predicate Agrees(st: State) {
    Present(st) && forall s :: Listed(st.applied, s).Some? ==> Look(st.dests, s) == Listed(st.applied, s)
  }

  /** A destination nobody wants any more is drained and queued, under a service that still exists. */
  ghost predicate Draining(st: State, s: Slot) {
    s.key in st.applied && s in st.dests && st.dests[s].weight == 0 && s in st.queue
  }

  ghost predicate Inv(st: State, cfg: Settings) {
    && Uniform(st.applied) && Present(st) && (cfg.rule.Upsert? ==> Agrees(st))
    && st.services.Keys == st.applied.Keys
    && (forall s :: s in st.dests && Listed(st.applied, s).None? ==> Draining(st, s))
    && (forall s :: s in st.queue ==> Listed(st.applied, s).None?)
    && (!cfg.graceful ==> st.queue == map[])
    && st.addrs == st.bound
  }

  const EMPTY_STATE := State(map[], map[], {}, {}, map[], {}, map[])

  datatype PassInput = PassInput(desired: Table, want: set<IpAddr>, full: bool, env: Env)

  ghost predicate PassedBy(st: State, p: PassInput, cfg: Settings, after: State) {
    Uniform(p.desired) && Passed(st, p.desired, p.want, p.full, cfg, p.env, after)
  }

  lemma {:induction false} EmptyInv(cfg: Settings)
    ensures Inv(EMPTY_STATE, cfg)
  {
  }

  lemma {:induction false} PassServices(st: State, p: PassInput, cfg: Settings, after: State)
    requires Inv(st, cfg) && PassedBy(st, p, cfg, after)
    ensures after.services.Keys == after.applied.Keys
    ensures forall k :: k in after.applied ==> Look(after.services, k) == Some(after.applied[k].svc)
  {
    hide Find, Uniform, Flushed, VipsBound, Draining;
    forall k
      ensures k in after.services <==> k in after.applied
      ensures k in after.applied ==> Look(after.services, k) == Some(after.applied[k].svc)
    {
      assert Look(after.services, k) == ServiceAfter(st, p.desired, p.full, cfg, k);
      assert k in st.services <==> k in st.applied;
    }
  }

  /** A listed slot after a pass: programmed, and out of reach of the sweep. */
  lemma {:induction false} ListedAfter(st: State, p: PassInput, cfg: Settings, after: State, s: Slot)
    requires PassedBy(st, p, cfg, after) && Listed(p.desired, s).Some?
    ensures Look(after.dests, s) == Written(cfg.rule, Listed(st.applied, s), Listed(p.desired, s), p.full, Look(st.dests, s))
  {
    hide Find, Uniform, Flushed, VipsBound;
    assert Look(after.dests, s) == DestAfter(st, p.desired, p.full, cfg, p.env, s);
  }

  lemma {:induction false} PassDests(st: State, p: PassInput, cfg: Settings, after: State)
    requires Inv(st, cfg) && PassedBy(st, p, cfg, after)
    ensures forall s :: Listed(after.applied, s).Some? ==> s in after.dests
    ensures cfg.rule.Upsert? ==> forall s :: Listed(after.applied, s).Some? ==> Look(after.dests, s) == Listed(after.applied, s)
  {
    hide Find, Uniform, Passed, Draining;
    LastApplied(st, p, cfg, after);
    forall s | Listed(after.applied, s).Some?
      ensures s in after.dests && (cfg.rule.Upsert? ==> Look(after.dests, s) == Listed(after.applied, s))
    {
      ListedAfter(st, p, cfg, after, s);
    }
  }

  lemma {:induction false} PassDrains(st: State, p: PassInput, cfg: Settings, after: State, s: Slot)
    requires Inv(st, cfg) && PassedBy(st, p, cfg, after)
    requires s in after.dests && Listed(after.applied, s).None?
    ensures Draining(after, s)
  {
    hide Find, Uniform, Flushed, VipsBound;
    assert Look(after.dests, s) == DestAfter(st, p.desired, p.full, cfg, p.env, s);
    assert Look(after.queue, s) == QueueAfter(st, p.desired, cfg, p.env, s);
    if !Stale(st.applied, p.desired, s) {
      assert Look(st.dests, s).Some?;
    }
  }

  lemma {:induction false} PassKeeps(st: State, p: PassInput, cfg: Settings, after: State)
    requires Inv(st, cfg) && PassedBy(st, p, cfg, after)
    ensures Inv(after, cfg)
  {
    hide Find, Uniform, Flushed, Draining;
    PassServices(st, p, cfg, after);
    PassDests(st, p, cfg, after);
    forall s | s in after.dests && Listed(after.applied, s).None?
      ensures Draining(after, s)
    {
      PassDrains(st, p, cfg, after, s);
    }
    forall s | s in after.queue
      ensures Listed(after.applied, s).None? && cfg.graceful
    {
      assert Look(after.queue, s) == QueueAfter(st, p.desired, cfg, p.env, s);
    }
    assert after.addrs == after.bound;
  }

  /** A run: every pass succeeds, each on its own snapshot, full or incremental. */
  ghost predicate IsRun(states: seq<State>, passes: seq<PassInput>, cfg: Settings) {
    && |states| == |passes| + 1 && states[0] == EMPTY_STATE
    && forall i :: 0 <= i < |passes| ==> StepOf(states, passes, cfg, i)
  }

  ghost predicate StepOf(states: seq<State>, passes: seq<PassInput>, cfg: Settings, i: nat)
    requires i < |passes| && |states| == |passes| + 1
  {
    PassedBy(states[i], passes[i], cfg, states[i+1])
  }

  lemma {:induction false} RunInv(states: seq<State>, passes: seq<PassInput>, cfg: Settings, n: nat)
    requires IsRun(states, passes, cfg) && n < |states|
    ensures Inv(states[n], cfg)
  {
    hide Inv, PassedBy;
    if n == 0 {
      EmptyInv(cfg);
    } else {
      RunInv(states, passes, cfg, n - 1);
      assert StepOf(states, passes, cfg, n - 1);
      PassKeeps(states[n-1], passes[n-1], cfg, states[n]);
    }
  }

  lemma {:induction false} LastApplied(st: State, p: PassInput, cfg: Settings, after: State)
    requires PassedBy(st, p, cfg, after)
    ensures after.applied == p.desired && after.bound == p.want && Uniform(p.desired)
  {
  }

  lemma {:induction false} ListedDest(t: Table, k: Key, d: IpvsDestination)
    requires Uniform(t) && k in t && d in t[k].dests
    ensures Listed(t, SlotOf(k, d)) == Some(d) && d.weight == 1
  {
    assert UniformEntry(k, t[k]);
  }

  lemma {:induction false} ListedWeight(t: Table, s: Slot)
    requires Uniform(t) && Listed(t, s).Some?
    ensures Listed(t, s).value.weight == 1
  {
    assert UniformEntry(s.key, t[s.key]);
  }

  // ---- convergence ---------------------------------------------------------------------------------

  /** All of the desired state but the weights: the services with their parameters and no others, every
      destination present, nothing but drained destinations besides, and the addresses. */
  ghost predicate Settled(st: State, desired: Table, want: set<IpAddr>) {
    && st.services.Keys == desired.Keys
    && (forall k :: k in desired ==> st.services[k] == desired[k].svc)
    && (forall k, d :: k in desired && d in desired[k].dests ==> SlotOf(k, d) in st.dests && d.weight == 1)
    && (forall s :: s in st.dests && Listed(desired, s).None? ==> s.key in desired && st.dests[s].weight == 0)
    && st.addrs == want
  }

  /** The kernel is as the desired state asks: every destination besides as it is listed, at weight 1. */
  ghost predicate Converged(st: State, desired: Table, want: set<IpAddr>) {
    Settled(st, desired, want) && forall k, d :: k in desired && d in desired[k].dests ==> Look(st.dests, SlotOf(k, d)) == Some(d)
  }

  /** After any run, whatever came before and under either rule, all is as the last snapshot asks but the
      weights. */
  lemma {:induction false} RunsSettle(states: seq<State>, passes: seq<PassInput>, cfg: Settings)
    requires IsRun(states, passes, cfg) && passes != []
    ensures Settled(states[|passes|], passes[|passes|-1].desired, passes[|passes|-1].want)
  {
    hide Find, Uniform, Passed;
    var n := |passes|;
    var st, desired := states[n], passes[n-1].desired;
    RunInv(states, passes, cfg, n);
    assert StepOf(states, passes, cfg, n - 1);
    LastApplied(states[n-1], passes[n-1], cfg, st);
    forall k, d | k in desired && d in desired[k].dests
      ensures SlotOf(k, d) in st.dests && d.weight == 1
    {
      ListedDest(desired, k, d);
    }
  }

  /** What a pass must find at a wanted slot for it to end as listed. Under `Upsert` every pass gets there from a
      reachable state. Under `Strict` an addition must find the slot empty, or as listed already; an edit always
      gets there, its destination being present. */
  ghost predicate EndsListed(st: State, p: PassInput, cfg: Settings, s: Slot) {
    || cfg.rule.Upsert?
    || (if p.full || Listed(st.applied, s).None? then s !in st.dests || Look(st.dests, s) == Listed(p.desired, s)
        else Listed(st.applied, s) == Listed(p.desired, s) ==> Look(st.dests, s) == Listed(p.desired, s))
  }

  ghost predicate AllEndListed(st: State, p: PassInput, cfg: Settings) {
    forall s :: Listed(p.desired, s).Some? ==> EndsListed(st, p, cfg, s)
  }

  lemma {:induction false} EndsListedIff(st: State, p: PassInput, cfg: Settings, after: State, s: Slot)
    requires Inv(st, cfg) && PassedBy(st, p, cfg, after) && Listed(p.desired, s).Some?
    ensures Look(after.dests, s) == Listed(p.desired, s) <==> EndsListed(st, p, cfg, s)
  {
    hide Find, Uniform, Passed, Draining;
    ListedAfter(st, p, cfg, after, s);
  }

  /** A run converges exactly when the last pass finds every wanted slot so: under `Upsert` always. */
  lemma {:induction false} RunsConvergeIff(states: seq<State>, passes: seq<PassInput>, cfg: Settings)
    requires IsRun(states, passes, cfg) && passes != []
    ensures var n := |passes|;
            Converged(states[n], passes[n-1].desired, passes[n-1].want) <==> AllEndListed(states[n-1], passes[n-1], cfg)
    ensures cfg.rule.Upsert? ==> Converged(states[|passes|], passes[|passes|-1].desired, passes[|passes|-1].want)
  {
    hide Find, Uniform, Passed, EndsListed, Inv, Settled;
    var n := |passes|;
    var st, p, after := states[n-1], passes[n-1], states[n];
    RunsSettle(states, passes, cfg);
    RunInv(states, passes, cfg, n - 1);
    assert StepOf(states, passes, cfg, n - 1);
    LastApplied(st, p, cfg, after);
    forall s | Listed(p.desired, s).Some?
      ensures Look(after.dests, s) == Listed(p.desired, s) <==> EndsListed(st, p, cfg, s)
      ensures var d := Listed(p.desired, s).value; s.key in p.desired && d in p.desired[s.key].dests && SlotOf(s.key, d) == s
    {
      EndsListedIff(st, p, cfg, after, s);
      ListedIsListed(p.desired, s);
    }
    forall k, d | k in p.desired && d in p.desired[k].dests
      ensures Listed(p.desired, SlotOf(k, d)) == Some(d)
    {
      ListedDest(p.desired, k, d);
    }
    UpsertEnds(st, p, cfg);
  }

  lemma {:induction false} UpsertEnds(st: State, p: PassInput, cfg: Settings)
    ensures cfg.rule.Upsert? ==> forall s :: EndsListed(st, p, cfg, s)
  {
  }

  lemma {:induction false} ListedIsListed(t: Table, s: Slot)
    requires Listed(t, s).Some?
    ensures s.key in t && Listed(t, s).value in t[s.key].dests && SlotOf(s.key, Listed(t, s).value) == s
  {
  }

  /** From a kernel that agrees with what was applied, an incremental pass under `Strict` ends with a wanted slot
      as listed exactly when it is not one that was unwanted and is still draining. */
  lemma {:induction false} IncrementalEndsListedIff(st: State, p: PassInput, cfg: Settings, after: State, s: Slot)
    requires Inv(st, cfg) && Agrees(st) && cfg.rule.Strict? && !p.full
    requires PassedBy(st, p, cfg, after) && Listed(p.desired, s).Some?
    ensures Look(after.dests, s) == Listed(p.desired, s) <==> !(s in st.dests && Listed(st.applied, s).None?)
  {
    hide Find, Uniform, Passed;
    EndsListedIff(st, p, cfg, after, s);
    LastApplied(st, p, cfg, after);
    ListedWeight(p.desired, s);
  }

  /** A full pass under `Strict`, likewise: also not one whose parameters changed, which it only adds again. */
  lemma {:induction false} FullEndsListedIff(st: State, p: PassInput, cfg: Settings, after: State, s: Slot)
    requires Inv(st, cfg) && Agrees(st) && cfg.rule.Strict? && p.full
    requires PassedBy(st, p, cfg, after) && Listed(p.desired, s).Some?
    ensures Look(after.dests, s) == Listed(p.desired, s) <==>
            !(s in st.dests && Listed(st.applied, s).None?) && !Changed(st.applied, p.desired, s)
  {
    hide Find, Uniform, Passed;
    EndsListedIff(st, p, cfg, after, s);
    LastApplied(st, p, cfg, after);
    ListedWeight(p.desired, s);
  }

  /** Without graceful termination nothing else is left at all. */
  lemma {:induction false} UngracefulRunsLeaveNothing(states: seq<State>, passes: seq<PassInput>, cfg: Settings, s: Slot)
    requires IsRun(states, passes, cfg) && passes != [] && !cfg.graceful
    ensures s in states[|passes|].dests ==> Listed(passes[|passes|-1].desired, s).Some?
  {
    hide Find, Uniform, Passed;
    RunInv(states, passes, cfg, |passes|);
    assert StepOf(states, passes, cfg, |passes| - 1);
    LastApplied(states[|passes|-1], passes[|passes|-1], cfg, states[|passes|]);
  }

  // ---- a destination wanted back ---------------------------------------------------------------------

  /** Under `Strict`, a wanted destination that was wanted before keeps the weight the kernel has, on passes of
      either kind. */
  lemma {:induction false} WeightSticks(st: State, p: PassInput, cfg: Settings, after: State, s: Slot)
    requires PassedBy(st, p, cfg, after) && cfg.rule.Strict?
    requires Listed(p.desired, s).Some? && Listed(st.applied, s) == Listed(p.desired, s) && s in st.dests
    ensures Look(after.dests, s) == Look(st.dests, s)
  {
    ListedAfter(st, p, cfg, after, s);
  }

  /** So a destination wanted back while it drains stays at weight 0 as long as it is wanted unchanged. */
  lemma {:induction false} StuckWhileWanted(states: seq<State>, passes: seq<PassInput>, cfg: Settings, s: Slot, m: nat, n: nat)
    requires IsRun(states, passes, cfg) && cfg.rule.Strict? && m < n <= |passes|
    requires s in states[m].dests && Listed(states[m].applied, s).None?
    requires forall j :: m <= j < n ==> Listed(passes[j].desired, s).Some? && Listed(passes[j].desired, s) == Listed(passes[m].desired, s)
    ensures s in states[n].dests && states[n].dests[s].weight == 0
    decreases n
  {
    hide Find, Uniform, Passed;
    assert StepOf(states, passes, cfg, n - 1);
    if n == m + 1 {
      RunInv(states, passes, cfg, m);
      ListedAfter(states[m], passes[m], cfg, states[n], s);
    } else {
      StuckWhileWanted(states, passes, cfg, s, m, n - 1);
      assert StepOf(states, passes, cfg, n - 2);
      LastApplied(states[n-2], passes[n-2], cfg, states[n-1]);
      WeightSticks(states[n-1], passes[n-1], cfg, states[n], s);
    }
  }

  const SERVICE := IpvsService(Ip(V4, 1), Tcp, 80, Rr, SchedFlags(false, false, false), None)
  const BACKEND := IpvsDestination(Ip(V4, 2), 8080, 1, false)
  const WITH_BACKEND: Table := map[SERVICE.KeyOf() := Entry(SERVICE, [BACKEND])]
  const WITHOUT_BACKEND: Table := map[SERVICE.KeyOf() := Entry(SERVICE, [])]
  const AT_BACKEND := SlotOf(SERVICE.KeyOf(), BACKEND)
  /** Ten ticks of grace, on the kernel's rule. */
  const GRACE := Settings(true, 10, Strict)
  /** Nothing idle, no time passing. */
  const BUSY := Env(_ => 0, 0, _ => None)

  lemma {:induction false} BackendTables()
    ensures Uniform(WITH_BACKEND) && Uniform(WITHOUT_BACKEND)
    ensures forall s :: Listed(WITH_BACKEND, s) == if s == AT_BACKEND then Some(BACKEND) else None
    ensures forall s :: Listed(WITHOUT_BACKEND, s) == None
  {
    forall addr, port
      ensures Find([BACKEND], addr, port) == if At(BACKEND, addr, port) then Some(BACKEND) else None
    {
      assert [BACKEND][..0] == [] && Find([], addr, port) == None;
    }
    assert UniformEntry(SERVICE.KeyOf(), Entry(SERVICE, [BACKEND]));
    assert UniformEntry(SERVICE.KeyOf(), Entry(SERVICE, []));
  }

  /** A reachable run of the shipped behaviour that ends at weight 0: a backend comes, goes, and comes back
      while it drains. The last pass may be of either kind. */
  lemma {:induction false} WantedBackStaysDrained(full: bool) returns (states: seq<State>, passes: seq<PassInput>)
    ensures |passes| == 3 && IsRun(states, passes, GRACE) && passes[2] == PassInput(WITH_BACKEND, {}, full, BUSY)
    ensures states[3].dests == map[AT_BACKEND := Drained(BACKEND)] && states[3].queue == map[]
    ensures !Converged(states[3], WITH_BACKEND, {})
  {
    BackendTables();
    hide Uniform, Find, Listed;
    var services: Services := map[SERVICE.KeyOf() := SERVICE];
    var up, down, back := PassInput(WITH_BACKEND, {}, true, BUSY), PassInput(WITHOUT_BACKEND, {}, false, BUSY), PassInput(WITH_BACKEND, {}, full, BUSY);
    var s1 := State(services, map[AT_BACKEND := BACKEND], {}, {}, WITH_BACKEND, {}, map[]);
    var s2 := State(services, map[AT_BACKEND := Drained(BACKEND)], {}, {}, WITHOUT_BACKEND, {}, map[AT_BACKEND := 10]);
    var s3 := State(services, map[AT_BACKEND := Drained(BACKEND)], {}, {}, WITH_BACKEND, {}, map[]);
    states, passes := [EMPTY_STATE, s1, s2, s3], [up, down, back];
    assert PassedBy(EMPTY_STATE, up, GRACE, s1) by {
      forall s
        ensures Listed(EMPTY_STATE.applied, s) == None
      {
        NothingListed(s);
      }
    }
    assert PassedBy(s1, down, GRACE, s2);
    assert PassedBy(s2, back, GRACE, s3);
    assert forall i :: 0 <= i < 3 ==> StepOf(states, passes, GRACE, i);
    assert BACKEND in WITH_BACKEND[SERVICE.KeyOf()].dests by {
      assert WITH_BACKEND[SERVICE.KeyOf()].dests[0] == BACKEND;
    }
    assert Look(s3.dests, AT_BACKEND) == Some(Drained(BACKEND));
  }

  lemma {:induction false} NothingListed(s: Slot)
    ensures Listed(map[], s) == None
  {
  }

  // ---- draining --------------------------------------------------------------------------------------

  /** After every pass of a run: a destination that is not wanted has weight 0 and is queued, nothing queued
      is wanted, and nothing idle or past its deadline is left. */
  lemma {:induction false} DrainInvariant(states: seq<State>, passes: seq<PassInput>, cfg: Settings, n: nat, s: Slot)
    requires IsRun(states, passes, cfg) && n < |passes|
    ensures var after, p := states[n+1], passes[n];
            && (s in after.dests && Listed(p.desired, s).None? ==> after.dests[s].weight == 0 && s in after.queue)
            && (s in after.queue ==> Listed(p.desired, s).None? && p.env.stats(s) != Some((0, 0)) && p.env.sweepNow < after.queue[s])
  {
    hide Find, Uniform;
    RunInv(states, passes, cfg, n + 1);
    assert StepOf(states, passes, cfg, n);
    var st, p, after := states[n], passes[n], states[n+1];
    assert Look(after.queue, s) == QueueAfter(st, p.desired, cfg, p.env, s);
  }

  /** A destination that lost its endpoint while its service stays is kept, drained and queued, exactly as long
      as it has connections, or an unknown number of them, and its deadline lies ahead: the one it was queued
      with, or one grace period from this very drain. */
  lemma {:induction false} DrainsUntilIdle(states: seq<State>, passes: seq<PassInput>, cfg: Settings, n: nat, s: Slot)
    requires IsRun(states, passes, cfg) && n < |passes| && cfg.graceful
    requires s in states[n].dests && s.key in passes[n].desired
    requires forall d :: d in passes[n].desired[s.key].dests ==> d.addr != s.addr || d.port != s.port
    ensures var env, after := passes[n].env, states[n+1];
            var deadline := if s in states[n].queue then states[n].queue[s] else env.drainedAt(s) + cfg.period;
            var stays := env.stats(s) != Some((0, 0)) && env.sweepNow < deadline;
            && (s in after.dests <==> stays) && (s in after.queue <==> stays)
            && (stays ==> after.dests[s].weight == 0 && after.queue[s] == deadline)
  {
    hide Find, Uniform;
    RunInv(states, passes, cfg, n);
    assert StepOf(states, passes, cfg, n);
    var st, p, after := states[n], passes[n], states[n+1];
    assert Listed(p.desired, s).None?;
    assert Look(after.dests, s) == DestAfter(st, p.desired, p.full, cfg, p.env, s);
    assert Look(after.queue, s) == QueueAfter(st, p.desired, cfg, p.env, s);
  }

  /** Connection tracking is flushed for exactly the UDP services that went away or lost a destination. */
  lemma {:induction false} UdpFlushedIff(st: State, p: PassInput, cfg: Settings, after: State, addr: IpAddr, port: nat)
    requires PassedBy(st, p, cfg, after)
    ensures (addr, port) in after.flushed <==>
            || (addr, port) in st.flushed
            || exists k: Key ::
                 && k.addr == addr && k.port == port && k.protocol == Udp && k in st.applied
                 && (k !in p.desired || exists d :: d in st.applied[k].dests && forall e :: e in p.desired[k].dests ==> e.addr != d.addr || e.port != d.port)
  {
    hide Find, Uniform, VipsBound;
    forall k | k in st.applied && k in p.desired
      ensures StaleAt(st.applied, p.desired, k) <==>
              exists d :: d in st.applied[k].dests && forall e :: e in p.desired[k].dests ==> e.addr != d.addr || e.port != d.port
    {
      LostDestination(st.applied, p.desired, k);
    }
    assert forall k: Key :: Endpoint(k) == (addr, port) <==> k.addr == addr && k.port == port;
  }

  lemma {:induction false} LostDestination(applied: Table, desired: Table, k: Key)
    requires k in applied && k in desired
    ensures StaleAt(applied, desired, k) <==>
            exists d :: d in applied[k].dests && forall e :: e in desired[k].dests ==> e.addr != d.addr || e.port != d.port
  {
    hide Find;
    if s: Slot :| s.key == k && Stale(applied, desired, s) {
      var d := Listed(applied, s).value;
      assert d in applied[k].dests;
    }
    if d :| d in applied[k].dests && forall e :: e in desired[k].dests ==> e.addr != d.addr || e.port != d.port {
      assert At(d, d.addr, d.port);
      assert Stale(applied, desired, SlotOf(k, d));
    }
  }

  /** The deadline of a queued removal was set by the pass that drained the destination, one grace period
      after it, and the destination has not been wanted since. */
  ghost predicate DrainedBy(states: seq<State>, passes: seq<PassInput>, cfg: Settings, n: nat, s: Slot, i: nat)
    requires IsRun(states, passes, cfg) && n < |states|
  {
    && i < n && s in states[n].queue
    && Stale(states[i].applied, passes[i].desired, s)
    && states[n].queue[s] == passes[i].env.drainedAt(s) + cfg.period
    && forall j :: i <= j < n ==> Listed(passes[j].desired, s).None?
  }

  lemma {:induction false} DeadlineIsFromDrain(states: seq<State>, passes: seq<PassInput>, cfg: Settings, n: nat, s: Slot) returns (i: nat)
    requires IsRun(states, passes, cfg) && n < |states| && s in states[n].queue
    ensures DrainedBy(states, passes, cfg, n, s, i)
    decreases n
  {
    hide Find, Uniform, Stale;
    assert n > 0;
    assert StepOf(states, passes, cfg, n - 1);
    var st, p := states[n-1], passes[n-1];
    assert Look(states[n].queue, s) == QueueAfter(st, p.desired, cfg, p.env, s);
    if s in st.queue {
      i := DeadlineIsFromDrain(states, passes, cfg, n - 1, s);
    } else {
      i := n - 1;
    }
  }

  /** A destination leaves the kernel only if its service is gone, or it was idle, or a grace period has
      passed since the drain after which it was not wanted again. */
  lemma {:induction false} GracePeriodHonoured(states: seq<State>, passes: seq<PassInput>, cfg: Settings, n: nat, s: Slot)
    requires IsRun(states, passes, cfg) && n < |passes| && cfg.graceful
    requires s in states[n].dests && s !in states[n+1].dests
    ensures Listed(passes[n].desired, s).None?
    ensures || s.key !in passes[n].desired
            || passes[n].env.stats(s) == Some((0, 0))
            || exists i: nat :: i <= n && Stale(states[i].applied, passes[i].desired, s)
                                && passes[n].env.sweepNow >= passes[i].env.drainedAt(s) + cfg.period
                                && forall j :: i <= j <= n ==> Listed(passes[j].desired, s).None?
  {
    hide Find, Uniform, Stale;
    RunInv(states, passes, cfg, n);
    RunInv(states, passes, cfg, n + 1);
    assert StepOf(states, passes, cfg, n);
    var st, p, after := states[n], passes[n], states[n+1];
    assert Look(after.dests, s) == DestAfter(st, p.desired, p.full, cfg, p.env, s);
    if s.key in p.desired && p.env.stats(s) != Some((0, 0)) {
      assert SweptNow(st, p.desired, cfg, p.env, s);
      if s in st.queue {
        var i := DeadlineIsFromDrain(states, passes, cfg, n, s);
      }
    }
  }

  // ---- full and incremental passes ------------------------------------------------------------------

  lemma {:induction false} SameLook<K, V>(m: map<K, V>, n: map<K, V>)
    requires forall k :: Look(m, k) == Look(n, k)
    ensures m == n
  {
    forall k
      ensures (k in m <==> k in n) && (k in m ==> m[k] == n[k])
    {
      assert Look(m, k) == Look(n, k);
    }
  }

  /** The destination stays wanted, with other parameters. */
  predicate Changed(applied: Table, desired: Table, s: Slot) {
    Listed(applied, s).Some? && Listed(desired, s).Some? && Listed(applied, s) != Listed(desired, s)
  }

  lemma {:induction false} KindsDifferAt(
    st: State, desired: Table, want: set<IpAddr>, cfg: Settings, env: Env, byFull: State, byDiff: State, s: Slot)
    requires Present(st) && (cfg.rule.Upsert? ==> Agrees(st))
    requires Passed(st, desired, want, true, cfg, env, byFull) && Passed(st, desired, want, false, cfg, env, byDiff)
    ensures Look(byFull.dests, s) == Look(byDiff.dests, s) <==>
            cfg.rule.Upsert? || !Changed(st.applied, desired, s) || Look(st.dests, s) == Listed(desired, s)
  {
    hide Find;
    assert Look(byFull.dests, s) == DestAfter(st, desired, true, cfg, env, s);
    assert Look(byDiff.dests, s) == DestAfter(st, desired, false, cfg, env, s);
  }

  /** Where the kernel has what was applied, the two kinds of pass end alike under `Upsert`; under `Strict`,
      exactly when every destination whose parameters changed has the new ones already. */
  lemma {:induction false} IncrementalRefinesFullIff(
    st: State, desired: Table, want: set<IpAddr>, cfg: Settings, env: Env, byFull: State, byDiff: State)
    requires Present(st) && (cfg.rule.Upsert? ==> Agrees(st))
    requires Passed(st, desired, want, true, cfg, env, byFull) && Passed(st, desired, want, false, cfg, env, byDiff)
    ensures byFull == byDiff <==>
            cfg.rule.Upsert? || forall s :: Changed(st.applied, desired, s) ==> Look(st.dests, s) == Listed(desired, s)
    ensures byFull.services == byDiff.services && byFull.queue == byDiff.queue
    ensures byFull.addrs == byDiff.addrs && byFull.flushed == byDiff.flushed
  {
    hide Find;
    forall s
      ensures Look(byFull.dests, s) == Look(byDiff.dests, s) <==>
              cfg.rule.Upsert? || !Changed(st.applied, desired, s) || Look(st.dests, s) == Listed(desired, s)
    {
      KindsDifferAt(st, desired, want, cfg, env, byFull, byDiff, s);
    }
    forall k
      ensures Look(byFull.services, k) == Look(byDiff.services, k)
    {
      assert Look(byFull.services, k) == ServiceAfter(st, desired, true, cfg, k);
      assert Look(byDiff.services, k) == ServiceAfter(st, desired, false, cfg, k);
    }
    forall s
      ensures Look(byFull.queue, s) == Look(byDiff.queue, s)
    {
      assert Look(byFull.queue, s) == QueueAfter(st, desired, cfg, env, s);
      assert Look(byDiff.queue, s) == QueueAfter(st, desired, cfg, env, s);
    }
    SameLook(byFull.services, byDiff.services);
    SameLook(byFull.queue, byDiff.queue);
    if forall s :: Look(byFull.dests, s) == Look(byDiff.dests, s) {
      SameLook(byFull.dests, byDiff.dests);
    }
    assert byFull.flushed == byDiff.flushed;
    assert byFull.addrs == byDiff.addrs;
  }

  /** In particular along every run. */
  lemma {:induction false} IncrementalRefinesFullInRuns(
    states: seq<State>, passes: seq<PassInput>, cfg: Settings, n: nat, desired: Table, want: set<IpAddr>, env: Env, byFull: State, byDiff: State)
    requires IsRun(states, passes, cfg) && n < |states|
    requires Passed(states[n], desired, want, true, cfg, env, byFull) && Passed(states[n], desired, want, false, cfg, env, byDiff)
    ensures byFull == byDiff <==>
            cfg.rule.Upsert? || forall s :: Changed(states[n].applied, desired, s) ==> Look(states[n].dests, s) == Listed(desired, s)
  {
    RunInv(states, passes, cfg, n);
    IncrementalRefinesFullIff(states[n], desired, want, cfg, env, byFull, byDiff);
  }

  /** A full pass, whatever became of the kernel's table and whatever was applied before: every desired
      destination is there, and it is as listed iff additions update, or it was missing, or it was so already. */
  lemma {:induction false} FullPassHealsIff(st: State, p: PassInput, cfg: Settings, after: State, s: Slot)
    requires PassedBy(st, p, cfg, after) && p.full && Listed(p.desired, s).Some?
    ensures s in after.dests
    ensures Look(after.dests, s) == Listed(p.desired, s) <==>
            cfg.rule.Upsert? || s !in st.dests || Look(st.dests, s) == Listed(p.desired, s)
  {
    ListedAfter(st, p, cfg, after, s);
  }

  /** Likewise a service: edited when its parameters changed, added otherwise. */
  lemma {:induction false} FullPassHealsServiceIff(st: State, p: PassInput, cfg: Settings, after: State, k: Key)
    requires PassedBy(st, p, cfg, after) && p.full && k in p.desired
    ensures Look(after.services, k) == Some(p.desired[k].svc) <==>
            || cfg.rule.Upsert?
            || Look(st.services, k) == Some(p.desired[k].svc)
            || (k in st.services <==> k in st.applied && st.applied[k].svc != p.desired[k].svc)
  {
    hide Find, Uniform, Flushed, VipsBound;
    assert Look(after.services, k) == ServiceAfter(st, p.desired, p.full, cfg, k);
  }

  /** An incremental pass restores a lost destination exactly when its desired state changed; under `Strict`,
      only when it was not wanted before, an edit of a missing one being no error. */
  lemma {:induction false} IncrementalHealsIff(st: State, p: PassInput, cfg: Settings, after: State, s: Slot)
    requires PassedBy(st, p, cfg, after) && !p.full && Listed(p.desired, s).Some? && s !in st.dests
    ensures s in after.dests <==>
            if cfg.rule.Upsert? then Listed(st.applied, s) != Listed(p.desired, s) else Listed(st.applied, s).None?
  {
    ListedAfter(st, p, cfg, after, s);
  }

  /** An address lost from the dummy interface is put back exactly when it was not bound before, on full
      passes too: bindings follow the record of what was bound, not the interface. */
  lemma {:induction false} LostAddressRestoredIff(st: State, p: PassInput, cfg: Settings, after: State, a: IpAddr)
    requires PassedBy(st, p, cfg, after) && a in p.want && a !in st.addrs
    ensures a in after.addrs <==> a !in st.bound
  {
    hide Find, Uniform, Flushed;
  }
}
