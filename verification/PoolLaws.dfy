/** Laws of reconciling a pool more than once and of handling a container's exit
    (internal/orchestrator/controller.go). */
module PoolLaws {
  import opened Basics
  import opened Tracking
  import opened Provisioning
  import opened Convergence

  // ---------------------------------------------------------------- draining and spawning at once

  ghost predicate HasSpawn(log: seq<Effect>, from: nat) {
    exists i :: from <= i < |log| && log[i].Spawn?
  }

  ghost predicate HasTermination(log: seq<Effect>, from: nat) {
    exists i :: from <= i < |log| && log[i].Terminate?
  }

  lemma {:induction false} FullQuotaNeverSpawns(o: Engine, p: Pool, onDemand: bool, s: Sys, active: nat, n: nat)
    requires p.targets != [] && QuotaFull(s)
    ensures SpawnLoop(o, p, onDemand, s, active, n).sys.log == s.log
    decreases n
  {
    hide Queued, Total;
    if n > 0 {
      FullQuotaNeverSpawns(o, p, onDemand, Enqueue(s, p.name, p.targets[active % |p.targets|]), active, n - 1);
    }
  }

  lemma SpawnLoopSpawns(o: Engine, p: Pool, onDemand: bool, s: Sys, active: nat, n: nat)
    requires p.targets != [] && n > 0
    requires p.maxConcurrency > 0 ==> active + Queued(s.queue, p.name) + n <= p.maxConcurrency
    ensures HasSpawn(SpawnLoop(o, p, onDemand, s, active, n).sys.log, |s.log|) <==>
            !QuotaFull(s) && o.spawn(s.calls).Spawned?
  {
    hide QuotaFull, Queued;
    var url := p.targets[active % |p.targets|];
    if QuotaFull(s) {
      FullQuotaNeverSpawns(o, p, onDemand, s, active, n);
    } else {
      var a := SpawnRunner(o, s, p, onDemand, url);
      if a.ok {
        SpawnLoopLog(o, p, onDemand, a.sys, active + 1, n - 1);
        var log := SpawnLoop(o, p, onDemand, a.sys, active + 1, n - 1).sys.log;
        assert log[|s.log|] == log[..|a.sys.log|][|s.log|];
        assert log[|s.log|].Spawn?;
      }
    }
  }

  /** Exactly when one reconcile both terminates and spawns: someone is drained, the pool is still
      short, the quota has room and the engine obliges.  By `DrainedMeansEnough` that takes a polling
      pool that scales to zero. */
  lemma DrainsAndSpawnsExactly(o: Engine, s: Sys, v: Visit)
    requires Taken(s, v)
    ensures var log := Converge(o, s, v).sys.log;
            (HasTermination(log, |s.log|) && HasSpawn(log, |s.log|)) <==>
            (&& v.p.targets != [] && Victims(v) != [] && Needed(s, v) > 0
             && !QuotaFull(ScaledDown(s, v)) && o.spawn(s.calls).Spawned?)
    ensures v.p.targets != [] && Victims(v) != [] && Needed(s, v) > 0 ==> v.demand.Polling? && v.p.minIdle == 0
  {
    hide Target, Victims, ScaledDown, SpawnLoop, Count, Total, Queued, WellKeyed, Kills, QuotaFull;
    var log := Converge(o, s, v).sys.log;
    if v.p.targets != [] {
      VictimsBounded(s, v);
      ScaleDownFacts(o, s, v, v.p.name);
      TargetWithinCap(v);
      if Victims(v) != [] && Needed(s, v) > 0 && (v.demand.Webhook? || v.p.minIdle != 0) {
        DrainedMeansEnough(v);
        assert false;
      }
      var t := ScaledDown(s, v);
      KillsAreTerminations(s.log, Victims(v));
      if Needed(s, v) > 0 {
        SpawnLoopSpawns(o, v.p, OnDemand(v), t, |RunningOf(v.rs)| - |Victims(v)|, Needed(s, v));
        SpawnLoopLog(o, v.p, OnDemand(v), t, |RunningOf(v.rs)| - |Victims(v)|, Needed(s, v));
        LogParts(s.log, t.log, log);
      }
    }
  }

  lemma KillsAreTerminations(log: seq<Effect>, gone: seq<RunnerStatus>)
    ensures !HasSpawn(log + Kills(gone), |log|)
    ensures HasTermination(log + Kills(gone), |log|) <==> gone != []
    ensures |log + Kills(gone)| == |log| + |gone|
  {
    if gone != [] {
      assert (log + Kills(gone))[|log|].Terminate?;
    }
  }

  lemma LogParts(a: seq<Effect>, b: seq<Effect>, c: seq<Effect>)
    requires |a| <= |b| && SpawnsOnly(b, c) && !HasSpawn(b, |a|)
    ensures HasTermination(c, |a|) <==> HasTermination(b, |a|)
    ensures HasSpawn(c, |a|) <==> HasSpawn(c, |b|)
  {
    assert forall i :: 0 <= i < |b| ==> c[i] == c[..|b|][i];
  }

  lemma Singletons(r: RunnerStatus, now: int, grace: int, jobs: nat)
    requires r.state.Running? && !r.isBusy && Stale(r, now, grace)
    ensures IdleOf([r]) == RunningOf([r]) == StaleOf([r], now, grace) == [r]
    ensures SlotsOf([r]) == {SlotOf(r)} && PollTotal([Some(jobs)]) == jobs
  {
    assert [r][..0] == [] && [Some(jobs)][..0] == [];
    assert forall x :: x in [r] <==> x == r;
  }

  /** It does happen: a lone stale standby runner is terminated and a new one spawned, because two jobs were
      polled. */
  lemma DrainsAndSpawnsExample(o: Engine, s: Sys, v: Visit, r: RunnerStatus)
    requires o.spawn(0).Spawned?
    requires r.state.Running? && !r.isBusy && !r.onDemand
    requires s == Sys(map[SlotOf(r) := r], [], 1, 0, [])
    requires v == Visit(Pool(1, r.poolName, 0, 0, 0, "u", ["u"]), [r], Polling([Some(2)]), 9, 300)
    ensures var log := Converge(o, s, v).sys.log;
            Taken(s, v) && HasTermination(log, 0) && HasSpawn(log, 0)
  {
    hide Victims, Target, RunningOf, Queued, SlotsOf, Taken, ScaledDown, QuotaFull, Converge;
    hide HasTermination, HasSpawn;
    ExampleVictims(v, r);
    ExampleTaken(s, v, r);
    NoneQueued([], r.poolName);
    QueuedIs([], r.poolName);
    ExampleQuota(s, r);
    assert ScaledDown(s, v) == TerminateAll(s, [r]) by { ScaledDownIs(s, v); }
    DrainsAndSpawnsExactly(o, s, v);
  }

  lemma ScaledDownIs(s: Sys, v: Visit)
    ensures ScaledDown(s, v) == TerminateAll(s, Victims(v))
  {
  }

  lemma ExampleTaken(s: Sys, v: Visit, r: RunnerStatus)
    requires s.fleet == map[SlotOf(r) := r] && v.rs == [r] && v.p.name == r.poolName
    ensures Taken(s, v)
  {
    assert forall x :: x in [r] <==> x == r;
  }

  lemma ExampleQuota(s: Sys, r: RunnerStatus)
    requires s.fleet == map[SlotOf(r) := r] && s.quota == 1
    ensures !QuotaFull(TerminateAll(s, [r]))
  {
    assert r in [r];
    assert TerminateAll(s, [r]).fleet == map[];
    assert RunningSlots(map[]) == {};
  }

  lemma ExampleVictims(v: Visit, r: RunnerStatus)
    requires r.state.Running? && !r.isBusy && !r.onDemand
    requires v.p.minIdle == v.p.maxConcurrency == 0 && v.rs == [r] && v.demand == Polling([Some(2)])
    ensures Target(v) == 2 && Victims(v) == [r] && RunningOf([r]) == [r] && SlotsOf([r]) == {SlotOf(r)}
  {
    hide IdleOf, RunningOf, StaleOf, PollTotal, SlotsOf, Victims;
    Singletons(r, v.now, GraceFor(v.p, v.grace), 2);
    UncappedVictims(v);
  }

  /** A pool that keeps none idle and has no cap drains its stale idle runners. */
  lemma UncappedVictims(v: Visit)
    requires v.p.minIdle == v.p.maxConcurrency == 0
    ensures Victims(v) == StaleOf(IdleOf(v.rs), v.now, GraceFor(v.p, v.grace))
  {
    hide IdleOf, RunningOf, StaleOf, Target, GraceFor;
    assert KeptIdle(v) == IdleOf(v.rs);
  }

  lemma QueuedIs(q: seq<Request>, pool: string)
    ensures Queued(q, pool) == |ForPool(q, pool)|
  {
  }

  // ---------------------------------------------------------------- reconciling twice

  ghost function IdleIn(f: Fleet, pool: string): set<Slot> {
    set k | k in RunningIn(f, pool) && !f[k].isBusy
  }

  lemma ListingIdle(f: Fleet, pool: string, rs: seq<RunnerStatus>)
    requires WellKeyed(f) && Listing(f, pool, rs)
    ensures SlotsOf(IdleOf(rs)) == IdleIn(f, pool)
    ensures |IdleOf(rs)| == |IdleIn(f, pool)|
  {
    IdleOfMembers(rs);
    SlotsOfSize(IdleOf(rs));
    forall k | k in IdleIn(f, pool) ensures k in SlotsOf(IdleOf(rs)) {
      assert f[k] in IdleOf(rs);
    }
  }

  /** After scaling down at the same instant there is nothing more to drain. */
  lemma NothingLeftToDrain(s: Sys, v: Visit, rs2: seq<RunnerStatus>)
    requires Taken(s, v) && v.demand.Webhook?
    requires Listing(ScaledDown(s, v).fleet, v.p.name, rs2)
    ensures Victims(v.(rs := rs2)) == []
    ensures |RunningOf(rs2)| == |RunningOf(v.rs)| - |Victims(v)|
  {
    hide Target, IdleOf, RunningOf;
    var t := ScaledDown(s, v);
    var v2 := v.(rs := rs2);
    var noOracle := Engine(_ => SpawnFailed, _ => -1);
    ScaleDownFacts(noOracle, s, v, v.p.name);
    ListingCount(t.fleet, v.p.name, rs2);
    TargetWithinCap(v);
    TargetWithinCap(v2);
    IdleShrinks(s, v, rs2);
    assert OverCap(v.p, |RunningOf(rs2)|, |IdleOf(rs2)|) == 0 || IdleOf(rs2) == [];
    assert KeptIdle(v2) == IdleOf(rs2);
    if v.p.minIdle == 0 {
      StaleOfMembers(IdleOf(rs2), v.now, GraceFor(v.p, v.grace));
      var left := StaleOf(IdleOf(rs2), v.now, GraceFor(v.p, v.grace));
      if left != [] {
        assert left[0] in left;
        SurvivorsAreFresh(s, v, rs2, left[0]);
        assert false;
      }
    }
  }

  lemma IdleShrinks(s: Sys, v: Visit, rs2: seq<RunnerStatus>)
    requires Taken(s, v)
    requires Listing(ScaledDown(s, v).fleet, v.p.name, rs2)
    ensures |IdleOf(rs2)| == |IdleOf(v.rs)| - |Victims(v)|
  {
    hide Victims, IdleOf;
    var gone := Victims(v);
    VictimsAreIdle(v);
    SlotsOfSize(gone);
    var t := ScaledDown(s, v);
    ListingIdle(s.fleet, v.p.name, v.rs);
    ListingIdle(t.fleet, v.p.name, rs2);
    assert SlotsOf(gone) <= IdleIn(s.fleet, v.p.name);
    assert IdleIn(t.fleet, v.p.name) == IdleIn(s.fleet, v.p.name) - SlotsOf(gone);
  }

  /** An idle runner that survived a scale-to-zero drain is not stale. */
  lemma SurvivorsAreFresh(s: Sys, v: Visit, rs2: seq<RunnerStatus>, r: RunnerStatus)
    requires Taken(s, v) && v.p.minIdle == 0
    requires Listing(ScaledDown(s, v).fleet, v.p.name, rs2) && r in IdleOf(rs2)
    ensures !Stale(r, v.now, GraceFor(v.p, v.grace))
  {
    hide IdleOf, Stale, Victims;
    IdleOfMembers(rs2);
    SurvivorIsFresh(s, v, r);
  }

  lemma SurvivorIsFresh(s: Sys, v: Visit, r: RunnerStatus)
    requires Taken(s, v) && v.p.minIdle == 0
    requires r.poolName == v.p.name && r.state.Running? && !r.isBusy
    requires SlotOf(r) in ScaledDown(s, v).fleet && ScaledDown(s, v).fleet[SlotOf(r)] == r
    ensures !Stale(r, v.now, GraceFor(v.p, v.grace))
  {
    hide IdleOf, RunningOf, Target;
    IdleOfMembers(v.rs);
    var gone := Victims(v);
    assert r in v.rs && r in IdleOf(v.rs);
    assert SlotOf(r) !in SlotsOf(gone);
    assert r in gone ==> SlotOf(r) in SlotsOf(gone);
    var idle := IdleOf(v.rs);
    var k := OverCap(v.p, |RunningOf(v.rs)|, |idle|);
    assert idle == idle[..k] + idle[k..];
    assert r in KeptIdle(v);
    StaleOfMembers(KeptIdle(v), v.now, GraceFor(v.p, v.grace));
  }

  lemma TerminateNobody(s: Sys)
    ensures TerminateAll(s, []) == s
  {
    assert Kills([]) == [];
    assert SlotsOf([]) == {};
    assert s.fleet - {} == s.fleet;
  }

  /** In webhook mode a second reconcile at the same instant, after a successful one, changes
      nothing: no runner, no request, no call. */
  lemma ConvergeTwice(o: Engine, s: Sys, v: Visit, rs2: seq<RunnerStatus>)
    requires Taken(s, v) && Fresh(o, s) && v.demand.Webhook?
    requires Converge(o, s, v).ok && Listing(Converge(o, s, v).sys.fleet, v.p.name, rs2)
    ensures Converge(o, Converge(o, s, v).sys, v.(rs := rs2)) == Attempt(true, Converge(o, s, v).sys)
  {
    if v.p.targets != [] {
      if Needed(s, v) <= 0 {
        SecondAfterDrain(o, s, v, rs2);
      } else {
        SecondAfterSpawn(o, s, v, rs2);
      }
    }
  }

  lemma SecondAfterDrain(o: Engine, s: Sys, v: Visit, rs2: seq<RunnerStatus>)
    requires Taken(s, v) && v.demand.Webhook? && v.p.targets != [] && Needed(s, v) <= 0
    requires Listing(ScaledDown(s, v).fleet, v.p.name, rs2)
    ensures Converge(o, s, v) == Attempt(true, ScaledDown(s, v))
    ensures Converge(o, ScaledDown(s, v), v.(rs := rs2)) == Attempt(true, ScaledDown(s, v))
  {
    hide Victims, Target, Queued, RunningOf, Taken, Fresh, Count, Total, TerminateAll, WellKeyed;
    var t, v2 := ScaledDown(s, v), v.(rs := rs2);
    ScaleDownFacts(o, s, v, v.p.name);
    NothingLeftToDrain(s, v, rs2);
    TargetWithinCap(v);
    TargetWithinCap(v2);
    TerminateNobody(t);
    assert Needed(t, v2) == Needed(s, v);
  }

  lemma SecondAfterSpawn(o: Engine, s: Sys, v: Visit, rs2: seq<RunnerStatus>)
    requires Taken(s, v) && Fresh(o, s) && v.demand.Webhook? && v.p.targets != [] && Needed(s, v) > 0
    requires Converge(o, s, v).ok && Listing(Converge(o, s, v).sys.fleet, v.p.name, rs2)
    ensures Converge(o, Converge(o, s, v).sys, v.(rs := rs2)) == Attempt(true, Converge(o, s, v).sys)
  {
    hide Queued, RunningOf, IdleOf, Fresh, Count, Total, TerminateAll, WellKeyed, Target, SpawnLoop;
    var c, v2 := Converge(o, s, v).sys, v.(rs := rs2);
    ScaleDownFacts(o, s, v, v.p.name);
    ConvergeReachesTarget(o, s, v);
    ListingCount(c.fleet, v.p.name, rs2);
    IdleOfMembers(rs2);
    TargetWithinCap(v);
    TargetWithinCap(v2);
    assert |RunningOf(rs2)| <= Target(v);
    assert Victims(v2) == [];
    TerminateNobody(c);
  }

  // ---------------------------------------------------------------- handling a container's exit

  /** reapContainer: terminate (its error is ignored), untrack, and drain the queue if the pools
      could be loaded. */
  ghost function Reap(o: Engine, db: Option<Pools>, s: Sys, k: Slot): Sys {
    var t := s.(fleet := s.fleet - {k}, log := s.log + [Terminate(k)]);
    if db.Some? then DrainQueue(o, db.value, t) else t
  }

  /** A drain never raises running + queued, and keeps it for a pool in the database. */
  lemma DrainSupply(o: Engine, pools: Pools, s: Sys, pool: string)
    requires WellNamed(pools) && Fresh(o, s)
    ensures var t := DrainQueue(o, pools, s);
            && Fresh(o, t) && Supply(t, pool) <= Supply(s, pool)
            && (pool in pools ==> Supply(t, pool) == Supply(s, pool))
  {
    hide WellNamed, Count, Queued, Total, Select, Subsequence, Bag;
    DrainConserves(o, pools, s);
    DrainLoopFacts(o, pools, s, s.queue, pool);
    SelectCounts(s.queue, DrainLoop(o, pools, s, s.queue).verdicts, pool);
  }

  lemma ReapFacts(o: Engine, db: Option<Pools>, s: Sys, k: Slot, pool: string)
    requires (db.Some? ==> WellNamed(db.value)) && Fresh(o, s) && WellKeyed(s.fleet)
    ensures var t := Reap(o, db, s, k);
            && Fresh(o, t) && WellKeyed(t.fleet) && Supply(t, pool) <= Supply(s, pool)
            && (k !in RunningIn(s.fleet, pool) && (db.Some? ==> pool in db.value) ==>
                  Supply(t, pool) == Supply(s, pool))
  {
    var t := s.(fleet := s.fleet - {k}, log := s.log + [Terminate(k)]);
    UntrackKeeps(o, s, t, k);
    hide Fresh, WellKeyed, WellNamed, Count, Queued, Total, RunningIn, DrainQueue;
    DropCounts(s.fleet, {k}, pool);
    if k !in RunningIn(s.fleet, pool) {
      UntrackOther(s.fleet, k, pool);
    }
    if db.Some? {
      DrainSupply(o, db.value, t, pool);
      DrainKeepsKeys(o, db.value, t);
    }
  }

  lemma UntrackKeeps(o: Engine, s: Sys, t: Sys, k: Slot)
    requires t.fleet == s.fleet - {k} && t.calls == s.calls && Fresh(o, s) && WellKeyed(s.fleet)
    ensures Fresh(o, t) && WellKeyed(t.fleet)
  {
  }

  lemma DrainKeepsKeys(o: Engine, pools: Pools, s: Sys)
    requires WellNamed(pools) && WellKeyed(s.fleet)
    ensures WellKeyed(DrainQueue(o, pools, s).fleet)
  {
    DrainLoopFacts(o, pools, s, s.queue, "");
  }

  lemma UntrackOther(f: Fleet, k: Slot, pool: string)
    requires k !in RunningIn(f, pool)
    ensures Count(f - {k}, pool) == Count(f, pool)
  {
    assert RunningIn(f - {k}, pool) == RunningIn(f, pool);
  }

  /** An exit of container `k` whose pool is still configured: reap it, then replenish the pool.  `db` is
      what the reap's queue drain reads; the visit has the pool as read afterwards. */
  ghost function HandleExit(o: Engine, db: Option<Pools>, s: Sys, k: Slot, v: Visit): Attempt {
    Converge(o, Reap(o, db, s, k), v)
  }

  ghost predicate ExitVisit(o: Engine, db: Option<Pools>, s: Sys, k: Slot, v: Visit) {
    && (db.Some? ==> WellNamed(db.value)) && Fresh(o, s) && WellKeyed(s.fleet)
    && v.p.name == k.pool && Listing(Reap(o, db, s, k).fleet, k.pool, v.rs)
  }

  /** What a webhook-mode pool is replenished to. */
  function StandingTarget(p: Pool): int {
    if p.targets == [] then 0 else Capped(p, p.minIdle)
  }

  /** Running + queued after one handling is at least the pool's target, and no more than the larger
      of that and what was there. */
  lemma ExitBounds(o: Engine, db: Option<Pools>, s: Sys, k: Slot, v: Visit)
    requires ExitVisit(o, db, s, k, v) && v.demand.Webhook?
    ensures var a := HandleExit(o, db, s, k, v);
            && Fresh(o, a.sys) && WellKeyed(a.sys.fleet)
            && (a.ok ==> Supply(a.sys, k.pool) >= StandingTarget(v.p))
            && Supply(a.sys, k.pool) <= Max(StandingTarget(v.p), Supply(s, k.pool))
  {
    ReapFacts(o, db, s, k, k.pool);
    var t := Reap(o, db, s, k);
    hide Fresh, WellKeyed, Reap, Listing, Supply;
    VisitBounds(o, t, v);
  }

  /** One webhook-mode visit leaves running + queued between the target and the larger of the target and
      what was there. */
  lemma VisitBounds(o: Engine, s: Sys, v: Visit)
    requires Taken(s, v) && Fresh(o, s) && v.demand.Webhook?
    ensures var a := Converge(o, s, v);
            && Fresh(o, a.sys) && WellKeyed(a.sys.fleet)
            && (a.ok ==> Supply(a.sys, v.p.name) >= StandingTarget(v.p))
            && Supply(a.sys, v.p.name) <= Max(StandingTarget(v.p), Supply(s, v.p.name))
  {
    hide Fresh, WellKeyed, Count, Queued, Listing, Target, Victims, ScaledDown, Total;
    TargetWithinCap(v);
    if v.p.targets != [] {
      ScaleDownFacts(o, s, v, v.p.name);
      ConvergeReachesTarget(o, s, v);
    }
  }
}
