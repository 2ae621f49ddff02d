/** A pool is not replenished twice: over any run, its running + queued grows only on new demand
    (internal/orchestrator/controller.go). */
module Replacement {
  import opened Basics
  import opened Tracking
  import opened Auditor
  import opened Provisioning
  import opened Convergence
  import opened PoolLaws
  import opened Hung
  import opened Shutdown
  import opened Runs
  import opened Controller

  /** The step brings no new demand for `pool` beyond `goal`: no job for it, no running container adopted
      into it, and visits of it by a webhook provider with a target of at most `goal`. */
  ghost predicate NoDemand(s: Sys, e: Event, pool: string, goal: int) {
    match e
    case Audit(live) => AdoptsIn(s, e, pool) == 0
    case VisitPool(v) => v.p.name == pool ==> v.demand.Webhook? && StandingTarget(v.p) <= goal
    case QueuedJob(p, _) => p.name != pool
    case EarlyEnqueue(p, _) => p != pool
    case _ => true
  }

  /** An audit reports no container that is yet to be spawned. */
  ghost predicate Honest(o: Engine, s: Sys, e: Event) {
    e.Audit? ==> forall r :: r in e.live ==> o.birth(r.id) < s.calls
  }

  // ---------------------------------------------------------------- one step

  lemma ShrinkSupply(o: Engine, s: Sys, t: Sys, gone: set<Slot>, pool: string)
    requires Fresh(o, s) && t.fleet == s.fleet - gone && t.calls == s.calls
    requires Queued(t.queue, pool) <= Queued(s.queue, pool)
    ensures Fresh(o, t) && Supply(t, pool) <= Supply(s, pool)
  {
    hide Count, Queued, Total;
    DropCounts(s.fleet, gone, pool);
  }

  lemma AuditSupply(o: Engine, s: Sys, e: Event, pool: string)
    requires WellKeyed(s.fleet) && Fresh(o, s) && e.Audit? && Honest(o, s, e) && AdoptsIn(s, e, pool) == 0
    ensures Fresh(o, Apply(o, s, e)) && Supply(Apply(o, s, e), pool) <= Supply(s, pool)
  {
    AuditCounts(s, e, pool);
    AuditTracksLive(s.fleet, e.live);
    hide AuditFleet, Count, Queued, AdoptsIn, AuditedStatus;
    var g := AuditFleet(s.fleet, e.live);
    forall k | k in g ensures o.birth(k.id) < s.calls {
      assert k.id in LiveIds(e.live);
    }
  }

  lemma KillSupply(c: Pass, s: Sys, k: Slot, pool: string)
    requires NamedReads(c.db) && Fresh(c.o, s)
    ensures Fresh(c.o, KillHung(c, s, k)) && Supply(KillHung(c, s, k), pool) <= Supply(s, pool)
  {
    hide Count, Queued, Fresh, DrainQueue, WellNamed;
    var t := Killing(c, s, k);
    ShrinkSupply(c.o, s, t, {k}, pool);
    var read := c.db(|t.log|);
    if read.Some? {
      DrainSupply(c.o, read.value, t, pool);
    }
  }

  lemma {:induction false} HungLoopSupply(c: Pass, s: Sys, p: Pool, rs: seq<RunnerStatus>, pool: string)
    requires NamedReads(c.db) && Fresh(c.o, s)
    ensures Fresh(c.o, HungLoop(c, s, p, rs)) && Supply(HungLoop(c, s, p, rs), pool) <= Supply(s, pool)
  {
    hide Supply, Fresh, KillHung, NamedReads, IsHung;
    if rs != [] {
      var n := |rs| - 1;
      HungLoopSupply(c, s, p, rs[..n], pool);
      KillSupply(c, HungLoop(c, s, p, rs[..n]), SlotOf(rs[n]), pool);
    }
  }

  lemma {:induction false} HungPassSupply(c: Pass, s: Sys, work: seq<Check>, pool: string)
    requires NamedReads(c.db) && Fresh(c.o, s)
    ensures Fresh(c.o, HungPass(c, s, work)) && Supply(HungPass(c, s, work), pool) <= Supply(s, pool)
  {
    hide Supply, Fresh, HungLoop, NamedReads;
    if work != [] {
      var n := |work| - 1;
      HungPassSupply(c, s, work[..n], pool);
      HungLoopSupply(c, HungPass(c, s, work[..n]), work[n].p, work[n].rs, pool);
    }
  }

  lemma VisitSupply(o: Engine, s: Sys, v: Visit, pool: string, goal: int)
    requires Taken(s, v) && Fresh(o, s)
    requires v.p.name == pool ==> v.demand.Webhook? && StandingTarget(v.p) <= goal
    ensures var t := Converge(o, s, v).sys;
            Fresh(o, t) && Supply(t, pool) <= Max(Supply(s, pool), goal)
  {
    hide Taken, Fresh, Converge, Count, Target, ScaledDown, WellKeyed;
    if v.p.name == pool {
      VisitBounds(o, s, v);
    } else {
      ConvergeIsLocal(o, s, v, pool);
      VisitFresh(o, s, v);
      QueuedIs(s.queue, pool);
      QueuedIs(Converge(o, s, v).sys.queue, pool);
      hide Queued;
    }
  }

  lemma VisitFresh(o: Engine, s: Sys, v: Visit)
    requires Taken(s, v) && Fresh(o, s)
    ensures Fresh(o, Converge(o, s, v).sys)
  {
    hide Fresh, Taken, Count, Queued, Needed, ScaledDown, SpawnLoop;
    if v.p.targets != [] {
      ConvergeReachesTarget(o, s, v);
    }
  }

  lemma JobSupply(o: Engine, s: Sys, p: Pool, url: string, pool: string)
    requires Fresh(o, s) && p.name != pool
    ensures var t := ServeJob(o, s, p, url).sys;
            Fresh(o, t) && Supply(t, pool) == Supply(s, pool)
  {
    JobAddsOne(o, s, p, url, pool);
    SpawnFacts(o, s, p, true, url, pool);
    hide Count, Total, ForPool;
  }

  lemma RemovalSupply(o: Engine, s: Sys, removed: string, rs: seq<RunnerStatus>, pool: string)
    requires WellKeyed(s.fleet) && Fresh(o, s) && Listing(s.fleet, removed, rs)
    ensures var t := DrainPool(s, removed, rs);
            Fresh(o, t) && Supply(t, pool) <= Supply(s, pool)
  {
    WithoutPoolFor(s.queue, removed, pool);
    QueuedIs(s.queue, pool);
    QueuedIs(WithoutPool(s.queue, removed), pool);
    hide WithoutPool, ForPool, Listing, WellKeyed, Count, Fresh;
    ShrinkSupply(o, s, DrainPool(s, removed, rs), SlotsOf(RunningOf(rs)), pool);
  }

  lemma EnqueueSupply(o: Engine, s: Sys, other: string, url: string, pool: string)
    requires Fresh(o, s) && other != pool
    ensures var t := Enqueue(s, other, url);
            Fresh(o, t) && Supply(t, pool) == Supply(s, pool)
  {
    EnqueueFacts(s, other, url, pool);
    hide Count, ForPool;
  }

  lemma BusySupply(o: Engine, s: Sys, k: Slot, busy: bool, pool: string)
    requires Fresh(o, s)
    ensures var t := Apply(o, s, MarkBusy(k, busy));
            Fresh(o, t) && Supply(t, pool) == Supply(s, pool)
  {
    hide Queued;
    var t := Apply(o, s, MarkBusy(k, busy));
    assert RunningIn(t.fleet, pool) == RunningIn(s.fleet, pool);
  }

  /** No step without demand raises running + queued of the pool above the larger of its start and the
      goal. */
  lemma StepSupply(o: Engine, s: Sys, e: Event, pool: string, goal: int)
    requires WellKeyed(s.fleet) && Fresh(o, s) && Enabled(o, s, e) && NoDemand(s, e, pool, goal) && Honest(o, s, e)
    ensures Fresh(o, Apply(o, s, e)) && Supply(Apply(o, s, e), pool) <= Max(Supply(s, pool), goal)
  {
    hide Supply, Fresh, WellKeyed, Reap, DrainQueue, HungPass, Converge, ServeJob, DrainPool, Enqueue, Listing;
    hide SnapshotsTaken, NamedReads, WellNamed, StandingTarget, AuditFleet, AdoptsIn;
    match e
    case Audit(live) => AuditSupply(o, s, e, pool);
    case ReapOne(k, db) => ReapFacts(o, db, s, k, pool);
    case DrainStep(db) => DrainStepSupply(o, s, db, pool);
    case RemovePool(p, rs) => RemovalSupply(o, s, p, rs, pool);
    case CheckHung(answers, recorder, now, work) => HungPassSupply(Pass(o, answers, recorder, now), s, work, pool);
    case VisitPool(v) => VisitSupply(o, s, v, pool, goal);
    case QueuedJob(p, url) => JobSupply(o, s, p, url, pool);
    case EarlyEnqueue(p, url) => EnqueueSupply(o, s, p, url, pool);
    case SetQuota(quota) => SameSupply(o, s, Apply(o, s, e), pool);
    case MarkBusy(k, busy) => BusySupply(o, s, k, busy, pool);
    case Forget(k) => ShrinkSupply(o, s, Apply(o, s, e), {k}, pool);
    case DismissSlots(slots, _) => ShrinkSupply(o, s, Apply(o, s, e), slots, pool);
  }

  lemma DrainStepSupply(o: Engine, s: Sys, db: Option<Pools>, pool: string)
    requires Named(db) && Fresh(o, s)
    ensures var t := Apply(o, s, DrainStep(db));
            Fresh(o, t) && Supply(t, pool) <= Supply(s, pool)
  {
    hide Fresh, Supply, DrainQueue, WellNamed;
    if db.Some? {
      DrainSupply(o, db.value, s, pool);
    }
  }

  lemma SameSupply(o: Engine, s: Sys, t: Sys, pool: string)
    requires Fresh(o, s) && t.fleet == s.fleet && t.queue == s.queue && t.calls == s.calls
    ensures Fresh(o, t) && Supply(t, pool) == Supply(s, pool)
  {
  }

  // ---------------------------------------------------------------- a whole run

  /** A run none of whose steps brings new demand for the pool. */
  ghost predicate Calm(o: Engine, s: Sys, es: seq<Event>, pool: string, goal: int) {
    forall i :: 0 <= i < |es| ==>
                  && NoDemand(Execute(o, s, es[..i]), es[i], pool, goal)
                  && Honest(o, Execute(o, s, es[..i]), es[i])
  }

  lemma CalmInit(o: Engine, s: Sys, es: seq<Event>, pool: string, goal: int)
    requires es != [] && Calm(o, s, es, pool, goal)
    ensures Calm(o, s, es[..|es| - 1], pool, goal)
  {
    hide NoDemand, Honest, Execute;
    var init := es[..|es| - 1];
    forall i | 0 <= i < |init|
      ensures NoDemand(Execute(o, s, init[..i]), init[i], pool, goal) && Honest(o, Execute(o, s, init[..i]), init[i])
    {
      assert init[..i] == es[..i] && init[i] == es[i];
    }
  }

  /** Over any run without new demand for a pool, in any interleaving with everything else the controller
      does, the pool's running + queued never exceeds the larger of its start and the goal. */
  lemma {:induction false} NoGrowthWithoutDemand(o: Engine, s: Sys, es: seq<Event>, pool: string, goal: int)
    requires WellKeyed(s.fleet) && Fresh(o, s) && IsRun(o, s, es) && Calm(o, s, es, pool, goal)
    ensures var t := Execute(o, s, es);
            WellKeyed(t.fleet) && Fresh(o, t) && Supply(t, pool) <= Max(Supply(s, pool), goal)
  {
    hide WellKeyed, Fresh, Supply, Apply, Enabled, NoDemand, Honest;
    if es != [] {
      var n := |es| - 1;
      CalmInit(o, s, es, pool, goal);
      NoGrowthWithoutDemand(o, s, es[..n], pool, goal);
      var t := Execute(o, s, es[..n]);
      assert NoDemand(t, es[n], pool, goal) && Honest(o, t, es[n]);
      StepKeys(o, t, es[n]);
      StepSupply(o, t, es[n], pool, goal);
    }
  }

  /** At most one replacement: after a first successful handling of a container's exit in a webhook-mode
      pool, no run without new demand raises the pool's running + queued, however often the same exit is
      handled in it, by events or by audits, whatever the database answers, as long as the pool's own
      target does not rise. */
  lemma ExitHandledTwice(o: Engine, db: Option<Pools>, s: Sys, k: Slot, v: Visit, es: seq<Event>)
    requires ExitVisit(o, db, s, k, v) && v.demand.Webhook? && HandleExit(o, db, s, k, v).ok
    requires var once := HandleExit(o, db, s, k, v).sys;
             IsRun(o, once, es) && Calm(o, once, es, k.pool, StandingTarget(v.p))
    ensures var once := HandleExit(o, db, s, k, v).sys;
            Supply(Execute(o, once, es), k.pool) <= Supply(once, k.pool)
  {
    hide ExitVisit, HandleExit, Calm, Supply, StandingTarget, Fresh, WellKeyed, Execute, IsRun;
    ExitBounds(o, db, s, k, v);
    NoGrowthWithoutDemand(o, HandleExit(o, db, s, k, v).sys, es, k.pool, StandingTarget(v.p));
  }

  // ---------------------------------------------------------------- event, then event; event, then audit

  /** A second event for the same exit is such a run. */
  lemma SecondEventIsCalm(o: Engine, s: Sys, k: Slot, db: Option<Pools>, v: Visit, goal: int)
    requires ExitVisit(o, db, s, k, v) && v.demand.Webhook? && StandingTarget(v.p) <= goal
    ensures var es := [ReapOne(k, db), VisitPool(v)];
            && IsRun(o, s, es) && Calm(o, s, es, k.pool, goal)
            && Execute(o, s, es) == HandleExit(o, db, s, k, v).sys
  {
    hide Reap, Converge, StandingTarget, Listing, Fresh, WellKeyed, WellNamed, Execute, IsRun;
    var a, b := ReapOne(k, db), VisitPool(v);
    var es := [a, b];
    NothingExecuted(o, s, es);
    assert es[..0] == [];
    EmptyRun(o, s);
    RunSnoc(o, s, [], a);
    assert [] + [a] == [a] == es[..1];
    RunSnoc(o, s, [a], b);
    assert [a] + [b] == es;
  }

  lemma EmptyRun(o: Engine, s: Sys)
    ensures IsRun(o, s, []) && Execute(o, s, []) == s
  {
  }

  /** Only the audit, first, and the visits can bring demand in a cycle of the control loop. */
  ghost predicate Routine(es: seq<Event>) {
    forall i :: 0 <= i < |es| ==>
                  es[i].ReapOne? || es[i].SetQuota? || es[i].DrainStep? || es[i].RemovePool? || es[i].CheckHung?
  }

  /** Every row of the pool has a webhook provider and a target of at most `goal`. */
  ghost predicate ModestRows(rows: seq<Pool>, demands: nat -> Option<Demand>, pool: string, goal: int) {
    forall i :: 0 <= i < |rows| && rows[i].name == pool && demands(i).Some? ==>
                  demands(i).value.Webhook? && StandingTarget(rows[i]) <= goal
  }

  lemma {:induction false} VisitsAreModest(es: seq<Event>, rows: seq<Pool>, demands: nat -> Option<Demand>,
                                           clock: nat -> int, grace: int, pool: string, goal: int)
    requires Visits(es, rows, demands, clock, grace) && ModestRows(rows, demands, pool, goal)
    ensures forall i :: 0 <= i < |es| ==>
                          && es[i].VisitPool?
                          && (es[i].v.p.name == pool ==> es[i].v.demand.Webhook? && StandingTarget(es[i].v.p) <= goal)
  {
    hide StandingTarget;
    if rows != [] {
      var n := |rows| - 1;
      assert ModestRows(rows[..n], demands, pool, goal);
      if demands(n).None? {
        VisitsAreModest(es, rows[..n], demands, clock, grace, pool, goal);
      } else {
        VisitsAreModest(es[..|es| - 1], rows[..n], demands, clock, grace, pool, goal);
      }
    }
  }

  /** A cycle of the control loop, audit included, is such a run if its audit adopts no running container
      into the pool. */
  lemma CycleIsCalm(o: Engine, s: Sys, c: Cycle, recorder: bool, grace: int, t: Trace, pool: string, goal: int)
    requires CycleTrace(c, o, s, recorder, grace, t)
    requires c.live.Some? ==> AdoptsIn(s, Audit(c.live.value), pool) == 0 && Honest(o, s, Audit(c.live.value))
    requires c.db.Some? ==> ModestRows(c.db.value, c.demands, pool, goal)
    ensures Calm(o, s, Flat(t), pool, goal)
  {
    var es := Flat(t);
    CyclePieces(o, s, c, recorder, grace, t);
    if c.db.Some? {
      VisitsAreModest(t.visits, c.db.value, c.demands, c.clock, grace, pool, goal);
    }
    hide CycleTrace, Flat, Execute, StandingTarget, AdoptsIn;
    NothingExecuted(o, s, es);
    forall i | 0 <= i < |es|
      ensures NoDemand(Execute(o, s, es[..i]), es[i], pool, goal) && Honest(o, Execute(o, s, es[..i]), es[i])
    {
      PieceIsCalm(o, s, Execute(o, s, es[..i]), c, es, t.visits, pool, goal, i);
    }
  }

  lemma PieceIsCalm(o: Engine, s: Sys, now: Sys, c: Cycle, es: seq<Event>, visits: seq<Event>, pool: string, goal: int,
                    i: nat)
    requires i < |es| && |visits| <= |es| && es[|es| - |visits|..] == visits && (i == 0 ==> now == s)
    requires c.live.Some? ==> AdoptsIn(s, Audit(c.live.value), pool) == 0 && Honest(o, s, Audit(c.live.value))
    requires c.live.Some? ==> es[0] == Audit(c.live.value) && |visits| < |es|
    requires forall i :: 0 <= i < |es| - |visits| && (c.live.Some? ==> i > 0) ==> Routine([es[i]])
    requires forall i :: 0 <= i < |visits| ==>
                           && visits[i].VisitPool?
                           && (visits[i].v.p.name == pool ==>
                                 visits[i].v.demand.Webhook? && StandingTarget(visits[i].v.p) <= goal)
    ensures NoDemand(now, es[i], pool, goal) && Honest(o, now, es[i])
  {
    hide StandingTarget, AdoptsIn;
    var m := |es| - |visits|;
    if i >= m {
      assert es[i] == visits[i - m];
    } else if !(c.live.Some? && i == 0) {
      assert Routine([es[i]]);
      assert [es[i]][0] == es[i];
    }
  }

  lemma NothingExecuted(o: Engine, s: Sys, es: seq<Event>)
    ensures Execute(o, s, es[..0]) == s
  {
  }

  lemma CyclePieces(o: Engine, s: Sys, c: Cycle, recorder: bool, grace: int, t: Trace)
    requires CycleTrace(c, o, s, recorder, grace, t)
    ensures var es := Flat(t);
            var m := |es| - |t.visits|;
            && m >= 0 && es[m..] == t.visits && (c.db.None? ==> t.visits == [])
            && (c.live.Some? ==> m > 0 && es[0] == Audit(c.live.value))
            && forall i :: 0 <= i < m && (c.live.Some? ==> i > 0) ==> Routine([es[i]])
  {
    hide Removing, IsChecked, Visits, Execute;
    var es := Flat(t);
    var m := |es| - |t.visits|;
    var front := t.audit + t.quota + t.drain + t.removals + t.hung;
    assert es == front + t.visits && |front| == m;
    assert es[m..] == t.visits;
    PoolRemovalsOnly(c, o, s, t);
    assert Routine(t.quota) && Routine(t.drain) && Routine(t.hung);
    forall i | 0 <= i < m && (c.live.Some? ==> i > 0) ensures Routine([es[i]]) {
      assert es[i] == front[i];
      if i < |t.audit| {
        assert es[i] == t.audit[i];
      }
    }
  }

  lemma PoolRemovalsOnly(c: Cycle, o: Engine, s: Sys, t: Trace)
    requires c.db.Some? ==>
               PoolRemovals(t.removals, ByName(c.db.value), Execute(o, s, t.audit + t.quota + t.drain).fleet)
    requires c.db.None? ==> t.removals == []
    ensures Routine(t.removals)
  {
  }

  /** The event stream, then the audit: a whole cycle of the control loop after a handled exit never raises
      the pool's running + queued. */
  lemma CycleAfterExit(o: Engine, db: Option<Pools>, s: Sys, k: Slot, v: Visit, c: Cycle, recorder: bool, grace: int,
                       t: Trace)
    requires ExitVisit(o, db, s, k, v) && v.demand.Webhook? && HandleExit(o, db, s, k, v).ok
    requires var once := HandleExit(o, db, s, k, v).sys;
             && CycleTrace(c, o, once, recorder, grace, t) && IsRun(o, once, Flat(t))
             && (c.live.Some? ==>
                   AdoptsIn(once, Audit(c.live.value), k.pool) == 0 && Honest(o, once, Audit(c.live.value)))
    requires c.db.Some? ==> ModestRows(c.db.value, c.demands, k.pool, StandingTarget(v.p))
    ensures var once := HandleExit(o, db, s, k, v).sys;
            Supply(Execute(o, once, Flat(t)), k.pool) <= Supply(once, k.pool)
  {
    hide ExitVisit, HandleExit, Calm, Supply, StandingTarget, CycleTrace, Flat, Execute, IsRun, AdoptsIn, ModestRows;
    CycleIsCalm(o, HandleExit(o, db, s, k, v).sys, c, recorder, grace, t, k.pool, StandingTarget(v.p));
    ExitHandledTwice(o, db, s, k, v, Flat(t));
  }

  // ---------------------------------------------------------------- what a cycle covers

  ghost predicate ReapsSlot(es: seq<Event>, k: Slot) {
    exists i :: 0 <= i < |es| && es[i].ReapOne? && es[i].slot == k
  }

  ghost predicate VisitsPool(es: seq<Event>, p: Pool, demand: Demand, now: int, grace: int) {
    exists i :: && 0 <= i < |es| && es[i].VisitPool?
                && es[i].v.p == p && es[i].v.demand == demand && es[i].v.now == now && es[i].v.grace == grace
  }

  ghost predicate Unlisted(rows: seq<Pool>, pool: string) {
    forall p :: p in rows ==> p.name != pool
  }

  /** Nothing is skipped: a cycle that audits reaps every container reported as not running; every cycle drains
      the queue; one that can load the pools drains every tracked pool that left the database, checks every
      pool with a lifetime and visits every pool whose provider could be resolved. */
  lemma CycleCovers(o: Engine, s: Sys, c: Cycle, recorder: bool, grace: int, t: Trace)
    requires CycleTrace(c, o, s, recorder, grace, t)
    ensures c.live.Some? ==>
              && t.audit != [] && t.audit[0] == Audit(c.live.value)
              && forall r :: r in c.live.value && !r.state.Running? ==> ReapsSlot(t.audit, Slot(r.poolName, r.id))
    ensures |t.drain| == 1 && t.drain[0].DrainStep?
    ensures Flat(t) == t.audit + t.quota + t.drain + t.removals + t.hung + t.visits
    ensures c.setting.Some? && c.setting.value > 0 ==> t.quota == [SetQuota(c.setting.value)]
    ensures c.db.Some? ==>
              && |t.hung| == 1 && t.hung[0].CheckHung? && t.hung[0].now == c.hungAt
              && (forall p :: p in c.db.value && p.maxLifetime > 0 ==>
                                exists i :: 0 <= i < |t.hung[0].work| && t.hung[0].work[i].p == p)
              && (forall k :: k in Execute(o, s, t.audit + t.quota + t.drain).fleet && Unlisted(c.db.value, k.pool) ==>
                                Removes(t.removals, k.pool))
              && (forall i :: 0 <= i < |c.db.value| && c.demands(i).Some? ==>
                                VisitsPool(t.visits, c.db.value[i], c.demands(i).value, c.clock(i), grace))
  {
    hide Execute, Reaps, VisitsPool, ReapsSlot, Visits, ByName, Removes, Overlaid, ExitedOf;
    if c.live.Some? {
      forall r | r in c.live.value && !r.state.Running? ensures ReapsSlot(t.audit, Slot(r.poolName, r.id)) {
        AuditReaps(c.live.value, c.reapReads, s.fleet, r);
      }
    }
    if c.db.Some? {
      forall k | k in Execute(o, s, t.audit + t.quota + t.drain).fleet && Unlisted(c.db.value, k.pool)
        ensures Removes(t.removals, k.pool)
      {
        NotByName(c.db.value, k.pool);
      }
      forall i | 0 <= i < |c.db.value| && c.demands(i).Some?
        ensures VisitsPool(t.visits, c.db.value[i], c.demands(i).value, c.clock(i), grace)
      {
        VisitsCover(t.visits, c.db.value, c.demands, c.clock, grace, i);
      }
      hide IsChecked;
      forall p | p in c.db.value && p.maxLifetime > 0
        ensures exists i :: 0 <= i < |t.hung[0].work| && t.hung[0].work[i].p == p
      {
        CheckedMeans(t.hung[0].work, p);
      }
    }
  }

  lemma CheckedMeans(work: seq<Check>, p: Pool)
    requires IsChecked(work, p)
    ensures exists i :: 0 <= i < |work| && work[i].p == p
  {
  }

  lemma AuditReaps(live: seq<RunnerStatus>, answers: nat -> Option<seq<Pool>>, f: Fleet, r: RunnerStatus)
    requires r in live && !r.state.Running?
    ensures ReapsSlot(AuditEvents(Some(live), answers, f), Slot(r.poolName, r.id))
  {
    var exited := ExitedOf(Overlaid(f, live));
    ExitedSlots(f, live);
    hide ExitedOf, Overlaid;
    assert SlotOf(r) in Exits(live);
    var x :| x in exited && SlotOf(x) == SlotOf(r);
    var j :| 0 <= j < |exited| && exited[j] == x;
    var es := AuditEvents(Some(live), answers, f);
    assert es[j + 1] == Reaps(exited, answers)[j];
  }

  lemma {:induction false} VisitsCover(es: seq<Event>, rows: seq<Pool>, demands: nat -> Option<Demand>,
                                       clock: nat -> int, grace: int, i: nat)
    requires Visits(es, rows, demands, clock, grace) && i < |rows| && demands(i).Some?
    ensures VisitsPool(es, rows[i], demands(i).value, clock(i), grace)
  {
    var n := |rows| - 1;
    if i == n {
      assert es[|es| - 1].VisitPool?;
    } else {
      var init := if demands(n).None? then es else es[..|es| - 1];
      VisitsCover(init, rows[..n], demands, clock, grace, i);
      var j :| && 0 <= j < |init| && init[j].VisitPool?
               && init[j].v.p == rows[i] && init[j].v.demand == demands(i).value
               && init[j].v.now == clock(i) && init[j].v.grace == grace;
      assert es[j] == init[j];
    }
  }

  /** Killing a hung runner serves the queue like reaping one: it makes no spawn attempt exactly if the pools
      cannot be loaded or, with it gone, nothing in the queue can be tried. */
  lemma KillTries(c: Pass, s: Sys, k: Slot)
    ensures var t := Killing(c, s, k);
            var read := c.db(|t.log|);
            KillHung(c, s, k).calls == s.calls <==> read.None? || Stuck(read.value, t, s.queue)
  {
    hide Stuck, DrainLoop;
    var t := Killing(c, s, k);
    var read := c.db(|t.log|);
    if read.Some? {
      DrainTries(c.o, read.value, t, t.queue);
    }
  }
}
