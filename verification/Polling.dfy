/** Reconciling a polled pool again with the same answers (internal/orchestrator/controller.go:846-981). */
module Polling {
  import opened Basics
  import opened Tracking
  import opened Provisioning
  import opened Convergence
  import opened PoolLaws
  import opened Spread

  // ---------------------------------------------------------------- what the spawn loop adds

  /** Spawned runners are stamped with a clock reading not before `now`. */
  ghost predicate StampedFrom(o: Engine, calls: nat, now: int) {
    forall i: nat :: calls <= i && o.spawn(i).Spawned? ==> o.spawn(i).at >= now
  }

  /** A runner spawned at `now` or later. */
  ghost predicate Arrival(r: RunnerStatus, onDemand: bool, now: int) {
    r.state.Running? && !r.isBusy && r.onDemand == onDemand && r.spawnedAt >= now
  }

  /** `g` is `f` with arrivals added. */
  ghost predicate OnlyArrivals(f: Fleet, g: Fleet, onDemand: bool, now: int) {
    && (forall k :: k in f ==> k in g && g[k] == f[k])
    && (forall k :: k in g && k !in f ==> Arrival(g[k], onDemand, now))
  }

  lemma SpawnAdds(o: Engine, s: Sys, p: Pool, onDemand: bool, url: string, now: int)
    requires Fresh(o, s) && StampedFrom(o, s.calls, now)
    ensures var t := SpawnRunner(o, s, p, onDemand, url).sys;
            OnlyArrivals(s.fleet, t.fleet, onDemand, now) && StampedFrom(o, t.calls, now)
  {
  }

  lemma {:induction false} SpawnLoopAdds(o: Engine, p: Pool, onDemand: bool, s: Sys, active: nat, n: nat, now: int)
    requires p.targets != [] && Fresh(o, s) && StampedFrom(o, s.calls, now)
    ensures OnlyArrivals(s.fleet, SpawnLoop(o, p, onDemand, s, active, n).sys.fleet, onDemand, now)
    decreases n
  {
    hide Queued, QuotaFull, SpawnRunner, Fresh, StampedFrom, Arrival;
    if n > 0 && !(p.maxConcurrency > 0 && active + Queued(s.queue, p.name) >= p.maxConcurrency) {
      var url := p.targets[active % |p.targets|];
      if QuotaFull(s) {
        QueueKeepsFresh(o, s, p.name, url);
        SpawnLoopAdds(o, p, onDemand, Enqueue(s, p.name, url), active, n - 1, now);
      } else {
        SpawnAdds(o, s, p, onDemand, url, now);
        SpawnFacts(o, s, p, onDemand, url, p.name);
        var a := SpawnRunner(o, s, p, onDemand, url);
        if a.ok {
          SpawnLoopAdds(o, p, onDemand, a.sys, active + 1, n - 1, now);
        }
      }
    }
  }

  lemma QueueKeepsFresh(o: Engine, s: Sys, pool: string, url: string)
    requires Fresh(o, s)
    ensures Fresh(o, Enqueue(s, pool, url))
  {
  }

  /** A reconcile leaves the runners it did not terminate as they were, and adds arrivals. */
  lemma ConvergeAdds(o: Engine, s: Sys, v: Visit)
    requires Taken(s, v) && Fresh(o, s) && StampedFrom(o, s.calls, v.now)
    requires v.p.targets != []
    ensures OnlyArrivals(ScaledDown(s, v).fleet, Converge(o, s, v).sys.fleet, OnDemand(v), v.now)
  {
    hide Victims, Needed, Taken, SpawnLoop, Fresh, StampedFrom, Arrival, ScaledDown;
    VictimsBounded(s, v);
    ScaleDownFacts(o, s, v, v.p.name);
    if Needed(s, v) > 0 {
      SpawnLoopAdds(o, v.p, OnDemand(v), ScaledDown(s, v), |RunningOf(v.rs)| - |Victims(v)|, Needed(s, v), v.now);
    }
  }

  // ---------------------------------------------------------------- busy runners

  ghost function BusyIn(f: Fleet, pool: string): set<Slot> {
    set k | k in RunningIn(f, pool) && f[k].isBusy
  }

  lemma ListingBusy(f: Fleet, pool: string, rs: seq<RunnerStatus>)
    requires WellKeyed(f) && Listing(f, pool, rs)
    ensures |RunningOf(rs)| == |IdleOf(rs)| + |BusyIn(f, pool)|
  {
    ListingCount(f, pool, rs);
    ListingIdle(f, pool, rs);
    hide RunningOf, IdleOf, WellKeyed, Listing;
    assert RunningIn(f, pool) == IdleIn(f, pool) + BusyIn(f, pool);
    assert IdleIn(f, pool) !! BusyIn(f, pool);
  }

  /** A reconcile leaves the pool's busy runners alone. */
  lemma BusyKept(o: Engine, s: Sys, v: Visit)
    requires Taken(s, v) && Fresh(o, s) && StampedFrom(o, s.calls, v.now) && v.p.targets != []
    ensures BusyIn(Converge(o, s, v).sys.fleet, v.p.name) == BusyIn(s.fleet, v.p.name)
  {
    ConvergeAdds(o, s, v);
    BusySurvive(s, v);
    hide Victims, Converge, Fresh, StampedFrom, ScaledDown, BusyIn, Taken;
    ArrivalsAreIdle(ScaledDown(s, v).fleet, Converge(o, s, v).sys.fleet, OnDemand(v), v.now, v.p.name);
  }

  lemma BusySurvive(s: Sys, v: Visit)
    requires Taken(s, v)
    ensures BusyIn(ScaledDown(s, v).fleet, v.p.name) == BusyIn(s.fleet, v.p.name)
  {
    VictimsAreIdle(v);
    hide Victims;
    var gone := SlotsOf(Victims(v));
    assert forall k :: k in gone ==> k in s.fleet && !s.fleet[k].isBusy;
    assert ScaledDown(s, v).fleet == s.fleet - gone;
    hide ScaledDown, SlotsOf, Listing;
  }

  lemma ArrivalsAreIdle(f: Fleet, g: Fleet, onDemand: bool, now: int, pool: string)
    requires OnlyArrivals(f, g, onDemand, now)
    ensures BusyIn(g, pool) == BusyIn(f, pool)
  {
  }

  /** How many idle runners a successful reconcile leaves. */
  lemma IdleAfter(o: Engine, s: Sys, v: Visit, rs2: seq<RunnerStatus>)
    requires Taken(s, v) && Fresh(o, s) && StampedFrom(o, s.calls, v.now) && v.p.targets != []
    requires Converge(o, s, v).ok && Listing(Converge(o, s, v).sys.fleet, v.p.name, rs2)
    ensures |IdleOf(rs2)| == |IdleOf(v.rs)| - |Victims(v)| + Room(ScaledDown(s, v), Shortfall(s, v))
    ensures |RunningOf(rs2)| - |IdleOf(rs2)| == |RunningOf(v.rs)| - |IdleOf(v.rs)|
  {
    hide Victims, Converge, ScaledDown, Room, Shortfall, AtPositions, RunningOf, IdleOf, Count, Fresh, StampedFrom;
    ConvergeReachesTarget(o, s, v);
    var spawns := ReconcileSplits(o, s, v);
    BusyKept(o, s, v);
    ListingBusy(s.fleet, v.p.name, v.rs);
    ListingBusy(Converge(o, s, v).sys.fleet, v.p.name, rs2);
    ListingCount(Converge(o, s, v).sys.fleet, v.p.name, rs2);
  }

  // ---------------------------------------------------------------- the second reconcile

  /** A first reconcile that ended, and what a second one at the same instant with the same answers sees. */
  ghost predicate Again(o: Engine, s: Sys, v: Visit, rs2: seq<RunnerStatus>) {
    && Taken(s, v) && Fresh(o, s) && StampedFrom(o, s.calls, v.now)
    && v.demand.Polling? && v.p.targets != [] && GraceFor(v.p, v.grace) > 0
    && Converge(o, s, v).ok && Listing(Converge(o, s, v).sys.fleet, v.p.name, rs2)
  }

  /** The cap leaves nothing more to drain. */
  lemma NothingOverCap(o: Engine, s: Sys, v: Visit, rs2: seq<RunnerStatus>)
    requires Again(o, s, v, rs2)
    ensures v.p.maxConcurrency > 0 ==> |RunningOf(rs2)| <= v.p.maxConcurrency || IdleOf(rs2) == []
    ensures OverCap(v.p, |RunningOf(rs2)|, |IdleOf(rs2)|) == 0
  {
    hide Target, SpawnLoop, RunningOf, IdleOf, Count, Queued, Fresh, StampedFrom, Total, Listing, Surplus;
    var c := Converge(o, s, v);
    TargetWithinCap(v);
    VictimsBounded(s, v);
    ScaleDownFacts(o, s, v, v.p.name);
    ConvergeReachesTarget(o, s, v);
    ListingCount(c.sys.fleet, v.p.name, rs2);
    assert |Victims(v)| >= OverCap(v.p, |RunningOf(v.rs)|, |IdleOf(v.rs)|);
    if Needed(s, v) <= 0 {
      IdleShrinks(s, v, rs2);
    }
  }

  /** A runner left idle by a scale-to-zero reconcile is not stale at the same instant. */
  lemma NobodyStale(o: Engine, s: Sys, v: Visit, rs2: seq<RunnerStatus>)
    requires Again(o, s, v, rs2) && v.p.minIdle == 0
    ensures StaleOf(IdleOf(rs2), v.now, GraceFor(v.p, v.grace)) == []
  {
    ConvergeAdds(o, s, v);
    IdleOfMembers(rs2);
    var stale := StaleOf(IdleOf(rs2), v.now, GraceFor(v.p, v.grace));
    StaleOfMembers(IdleOf(rs2), v.now, GraceFor(v.p, v.grace));
    hide Converge, Victims, IdleOf, StaleOf, ScaledDown, Fresh, StampedFrom, GraceFor;
    if stale != [] {
      var r := stale[0];
      assert r in stale;
      if SlotOf(r) in ScaledDown(s, v).fleet {
        SurvivorIsFresh(s, v, r);
      }
    }
  }

  /** How many runners the second reconcile terminates: the idle ones above the standing target, unless the
      backlog is still larger than the idle runners or the pool scales to zero. */
  ghost function Excess(p: Pool, jobs: nat, idle: nat): nat {
    if jobs <= idle && p.minIdle != 0 then Min(idle, Max(0, idle - Capped(p, p.minIdle))) else 0
  }

  lemma SecondVictims(o: Engine, s: Sys, v: Visit, rs2: seq<RunnerStatus>)
    requires Again(o, s, v, rs2)
    ensures |Victims(v.(rs := rs2))| == Excess(v.p, PollTotal(v.demand.answers), |IdleOf(rs2)|)
  {
    NothingOverCap(o, s, v, rs2);
    var v2 := v.(rs := rs2);
    ListingBusy(Converge(o, s, v).sys.fleet, v.p.name, rs2) by {
      ConvergeReachesTarget(o, s, v);
    }
    if v.p.minIdle == 0 {
      NobodyStale(o, s, v, rs2);
    }
    hide Converge, IdleOf, RunningOf, StaleOf, Again, PollTotal, BusyIn;
    assert KeptIdle(v2) == IdleOf(rs2);
  }

  /** Whether the second reconcile is still short. */
  lemma SecondNeeded(o: Engine, s: Sys, v: Visit, rs2: seq<RunnerStatus>)
    requires Again(o, s, v, rs2)
    ensures var t := Converge(o, s, v).sys;
            var jobs, idle, busy := PollTotal(v.demand.answers), |IdleOf(rs2)|, |RunningOf(rs2)| - |IdleOf(rs2)|;
            Needed(t, v.(rs := rs2)) > 0 <==>
            jobs > idle && Supply(t, v.p.name) < Capped(v.p, Max(v.p.minIdle, busy + jobs))
  {
    hide Converge, IdleOf, RunningOf, Victims, PollTotal, Count, Queued, Fresh, StampedFrom, ScaledDown;
    var t, v2 := Converge(o, s, v).sys, v.(rs := rs2);
    ConvergeReachesTarget(o, s, v);
    ListingCount(t.fleet, v.p.name, rs2);
    SecondVictims(o, s, v, rs2);
    assert Target(v) >= Capped(v.p, v.p.minIdle);
    if Victims(v2) != [] {
      DrainedMeansEnough(v2);
    }
  }

  lemma {:induction false} LoopOnlyGrows(o: Engine, p: Pool, onDemand: bool, s: Sys, active: nat, n: nat)
    requires p.targets != []
    ensures var t := SpawnLoop(o, p, onDemand, s, active, n).sys;
            t.calls >= s.calls && |t.queue| >= |s.queue|
    decreases n
  {
    hide Queued, QuotaFull;
    if n > 0 {
      var url := p.targets[active % |p.targets|];
      LoopOnlyGrows(o, p, onDemand, Enqueue(s, p.name, url), active, n - 1);
      LoopOnlyGrows(o, p, onDemand, SpawnRunner(o, s, p, onDemand, url).sys, active + 1, n - 1);
    }
  }

  /** A loop with something to do makes an attempt or queues a request. */
  lemma LoopMoves(o: Engine, p: Pool, onDemand: bool, s: Sys, active: nat, n: nat)
    requires p.targets != [] && n > 0
    requires p.maxConcurrency > 0 ==> active + Queued(s.queue, p.name) + n <= p.maxConcurrency
    ensures SpawnLoop(o, p, onDemand, s, active, n).sys != s
  {
    hide Queued, QuotaFull;
    var url := p.targets[active % |p.targets|];
    LoopOnlyGrows(o, p, onDemand, Enqueue(s, p.name, url), active, n - 1);
    LoopOnlyGrows(o, p, onDemand, SpawnRunner(o, s, p, onDemand, url).sys, active + 1, n - 1);
  }

  /** Exactly when a second polling reconcile, at the same instant and with the same answers, changes
      nothing, and how many runners it terminates: it terminates the excess, and then does nothing else; it
      spawns or queues exactly if the backlog exceeds the idle runners the first one left and running + queued
      does not cover it. */
  lemma PollTwice(o: Engine, s: Sys, v: Visit, rs2: seq<RunnerStatus>)
    requires Again(o, s, v, rs2)
    ensures var t, v2 := Converge(o, s, v).sys, v.(rs := rs2);
            var jobs, idle, busy := PollTotal(v.demand.answers), |IdleOf(rs2)|, |RunningOf(rs2)| - |IdleOf(rs2)|;
            var excess := Excess(v.p, jobs, idle);
            && |Victims(v2)| == excess
            && (excess > 0 ==> Converge(o, t, v2) == Attempt(true, TerminateAll(t, Victims(v2))))
            && (Converge(o, t, v2) == Attempt(true, t) <==>
                  && excess == 0
                  && (jobs > idle ==> Supply(t, v.p.name) >= Capped(v.p, Max(v.p.minIdle, busy + jobs))))
  {
    var t, v2 := Converge(o, s, v).sys, v.(rs := rs2);
    SecondVictims(o, s, v, rs2);
    SecondNeeded(o, s, v, rs2);
    SecondTaken(o, s, v, rs2);
    VictimsBounded(t, v2);
    TargetWithinCap(v2);
    TerminateNobody(t);
    SecondOutcome(o, t, v2);
    hide Converge, IdleOf, RunningOf, Victims, PollTotal, Supply, Target, Needed, TerminateAll, Again, Taken,
         ScaledDown;
  }

  lemma SecondTaken(o: Engine, s: Sys, v: Visit, rs2: seq<RunnerStatus>)
    requires Again(o, s, v, rs2)
    ensures Taken(Converge(o, s, v).sys, v.(rs := rs2))
  {
    hide Converge, Fresh, WellKeyed, Listing, Count, Queued, Target, ScaledDown;
    ConvergeReachesTarget(o, s, v);
  }

  /** A reconcile changes nothing exactly if it terminates nobody and is not short. */
  lemma SecondOutcome(o: Engine, s: Sys, v: Visit)
    requires Taken(s, v) && v.p.targets != []
    ensures Needed(s, v) <= 0 ==> Converge(o, s, v) == Attempt(true, TerminateAll(s, Victims(v)))
    ensures Converge(o, s, v) == Attempt(true, s) <==> Victims(v) == [] && Needed(s, v) <= 0
  {
    hide Target, Victims, Taken, Queued, RunningOf, SpawnLoop, SlotsOf;
    VictimsBounded(s, v);
    TargetWithinCap(v);
    TerminateNobody(s);
    var active := |RunningOf(v.rs)| - |Victims(v)|;
    if Needed(s, v) > 0 {
      SpawnLoopLog(o, v.p, OnDemand(v), ScaledDown(s, v), active, Needed(s, v));
      LoopMoves(o, v.p, OnDemand(v), ScaledDown(s, v), active, Needed(s, v));
    }
  }

  /** In particular, when the first reconcile saw a backlog: the second changes nothing exactly if the pool
      scales to zero, or the idle runners the first left are fewer than the jobs, or no more than the
      standing target. */
  lemma BacklogTwice(o: Engine, s: Sys, v: Visit, rs2: seq<RunnerStatus>)
    requires Again(o, s, v, rs2) && PollTotal(v.demand.answers) > |IdleOf(v.rs)|
    ensures var t, v2 := Converge(o, s, v).sys, v.(rs := rs2);
            var idle := |IdleOf(v.rs)| - |Victims(v)| + Room(ScaledDown(s, v), Shortfall(s, v));
            && |IdleOf(rs2)| == idle
            && (Converge(o, t, v2) == Attempt(true, t) <==>
                  v.p.minIdle == 0 || idle < PollTotal(v.demand.answers) || idle <= Capped(v.p, v.p.minIdle))
  {
    hide Converge, IdleOf, RunningOf, Victims, PollTotal, Supply, ScaledDown, Shortfall, Room, Again;
    PollTwice(o, s, v, rs2);
    BacklogCovered(o, s, v, rs2);
  }

  lemma BacklogCovered(o: Engine, s: Sys, v: Visit, rs2: seq<RunnerStatus>)
    requires Again(o, s, v, rs2) && PollTotal(v.demand.answers) > |IdleOf(v.rs)|
    ensures var busy := |RunningOf(rs2)| - |IdleOf(rs2)|;
            && |IdleOf(rs2)| == |IdleOf(v.rs)| - |Victims(v)| + Room(ScaledDown(s, v), Shortfall(s, v))
            && Supply(Converge(o, s, v).sys, v.p.name) >=
               Capped(v.p, Max(v.p.minIdle, busy + PollTotal(v.demand.answers)))
  {
    hide Converge, IdleOf, RunningOf, Victims, PollTotal, Supply, ScaledDown, Shortfall, Room, Listing, Fresh,
         StampedFrom;
    IdleAfter(o, s, v, rs2);
    ConvergeReachesTarget(o, s, v);
  }

  // ---------------------------------------------------------------- flapping

  /** It flaps: with a minimum of one, nothing running and two jobs polled, the first reconcile spawns two, the
      second terminates one of them, and the third is short of one again. */
  lemma PollingFlaps(o: Engine, s: Sys, v: Visit, rs2: seq<RunnerStatus>, rs3: seq<RunnerStatus>)
    requires s == Sys(map[], [], 10, 0, []) && Fresh(o, s) && StampedFrom(o, 0, 9)
    requires o.spawn(0).Spawned? && o.spawn(1).Spawned?
    requires v == Visit(Pool(1, "p", 1, 0, 0, "u", ["u"]), [], Polling([Some(2)]), 9, 300)
    requires Listing(Converge(o, s, v).sys.fleet, "p", rs2)
    requires Listing(Converge(o, Converge(o, s, v).sys, v.(rs := rs2)).sys.fleet, "p", rs3)
    ensures var once := Converge(o, s, v).sys;
            var twice := Converge(o, once, v.(rs := rs2)).sys;
            && |RunningOf(rs2)| == |IdleOf(rs2)| == 2
            && |Victims(v.(rs := rs2))| == 1 && twice == TerminateAll(once, Victims(v.(rs := rs2)))
            && |RunningOf(rs3)| == 1 && Needed(twice, v.(rs := rs3)) == 1
  {
    FlapFirst(o, s, v);
    IdleAfter(o, s, v, rs2);
    PollTwice(o, s, v, rs2);
    FlapTotal(v);
    var once, v2 := Converge(o, s, v).sys, v.(rs := rs2);
    FlapCalls(o, s, v);
    SecondTaken(o, s, v, rs2);
    assert once.queue == [] && Fresh(o, once);
    FlapThird(o, once, v2, rs3);
  }

  lemma FlapTotal(v: Visit)
    requires v.demand == Polling([Some(2)])
    ensures PollTotal(v.demand.answers) == 2
  {
    assert [Some(2)][..0] == [];
  }

  lemma FlapFirst(o: Engine, s: Sys, v: Visit)
    requires s == Sys(map[], [], 10, 0, []) && o.spawn(0).Spawned? && o.spawn(1).Spawned?
    requires v == Visit(Pool(1, "p", 1, 0, 0, "u", ["u"]), [], Polling([Some(2)]), 9, 300)
    ensures Taken(s, v) && Victims(v) == [] && IdleOf(v.rs) == RunningOf(v.rs) == []
    ensures Needed(s, v) == 2 && Room(ScaledDown(s, v), Shortfall(s, v)) == 2 && Converge(o, s, v).ok
  {
    FlapTotal(v);
    assert Victims(v) == [] && RunningOf(v.rs) == [] && Target(v) == 2;
    assert ForPool([], "p") == [];
    UnevenScaledDown(s, v);
    assert RunningSlots(s.fleet) == {};
    LoopSucceeds(o, v.p, OnDemand(v), s, 0, 2);
    hide SpawnLoop;
  }

  lemma FlapCalls(o: Engine, s: Sys, v: Visit)
    requires Taken(s, v) && Fresh(o, s) && v.p.targets != [] && Converge(o, s, v).ok && s.queue == []
    requires Room(ScaledDown(s, v), Shortfall(s, v)) == Shortfall(s, v)
    ensures Converge(o, s, v).sys.queue == [] && Fresh(o, Converge(o, s, v).sys)
  {
    hide Converge, Fresh, ScaledDown, Room, Shortfall, AtPositions, Taken;
    var spawns := ReconcileSplits(o, s, v);
    ConvergeReachesTarget(o, s, v);
  }

  lemma FlapThird(o: Engine, s: Sys, v: Visit, rs3: seq<RunnerStatus>)
    requires Taken(s, v) && s.queue == [] && v.p == Pool(1, "p", 1, 0, 0, "u", ["u"]) && v.demand == Polling([Some(2)])
    requires |RunningOf(v.rs)| == |IdleOf(v.rs)| == 2 && |Victims(v)| == 1
    requires Converge(o, s, v) == Attempt(true, TerminateAll(s, Victims(v)))
    requires Listing(Converge(o, s, v).sys.fleet, "p", rs3)
    ensures |RunningOf(rs3)| == 1 && Needed(Converge(o, s, v).sys, v.(rs := rs3)) == 1
  {
    hide RunningOf, IdleOf, Converge, Count, Total, PollTotal;
    FlapTotal(v);
    var t := TerminateAll(s, Victims(v));
    assert t == ScaledDown(s, v) && t.queue == [];
    IdleShrinks(s, v, rs3);
    ScaleDownFacts(o, s, v, "p");
    ListingCount(t.fleet, "p", rs3);
    assert ForPool([], "p") == [];
    var v3 := v.(rs := rs3);
    assert Target(v3) == 2 && |KeptIdle(v3)| == 1;
  }
}
