/** internal/orchestrator/controller.go: the pool controller itself.  Every method is proved to take the
    snapshot of its state exactly where the specification functions say. */
module Controller {
  import opened Basics
  import opened Tracking
  import opened Auditor
  import opened Provisioning
  import opened Convergence
  import opened PoolLaws
  import opened Hung
  import opened Shutdown
  import opened Runs

  datatype Mode = Stopped | Booting | Active | Paused

  const DEFAULT_TOTAL_ALLOWED_RUNNERS := 20
  const DEFAULT_SCALE_TO_ZERO_GRACE := 300

  /** The pools of a database read, by name; a later row wins. */
  function ByName(rows: seq<Pool>): Pools {
    if rows == [] then map[]
    else
      var last := rows[|rows| - 1];
      ByName(rows[..|rows| - 1])[last.name := last]
  }

  lemma {:induction false} ByNameWellNamed(rows: seq<Pool>)
    ensures WellNamed(ByName(rows))
  {
    if rows != [] {
      ByNameWellNamed(rows[..|rows| - 1]);
    }
  }

  function Loaded(db: Option<seq<Pool>>): Option<Pools> {
    if db.Some? then Some(ByName(db.value)) else None
  }

  function LoadedEach(db: nat -> Option<seq<Pool>>): nat -> Option<Pools> {
    (n: nat) => Loaded(db(n))
  }

  ghost function DrainedBy(o: Engine, db: Option<seq<Pool>>, s: Sys): Sys {
    if db.Some? then DrainQueue(o, ByName(db.value), s) else s
  }

  lemma TerminateTwice(s: Sys, a: seq<RunnerStatus>, b: seq<RunnerStatus>)
    ensures TerminateAll(TerminateAll(s, a), b) == TerminateAll(s, a + b)
  {
    assert SlotsOf(a + b) == SlotsOf(a) + SlotsOf(b);
    assert s.fleet - SlotsOf(a) - SlotsOf(b) == s.fleet - SlotsOf(a + b);
    assert Kills(a + b) == Kills(a) + Kills(b);
  }

  lemma TerminateOne(s: Sys, r: RunnerStatus)
    ensures TerminateAll(s, [r]) == s.(fleet := s.fleet - {SlotOf(r)}, log := s.log + [Terminate(SlotOf(r))])
  {
    assert r in [r];
    assert SlotsOf([r]) == {SlotOf(r)};
    assert Kills([r]) == [Terminate(SlotOf(r))];
  }

  class PoolController {
    const reconciler: Reconciler
    /** The container engine and Git provider, as an oracle, and the spawn attempts made so far. */
    const engine: Engine
    var calls: nat
    var log: seq<Effect>
    const hasRecorder: bool
    const scaleToZeroGrace: int

    var queue: seq<Request>
    var state: Mode
    var globalMaxRunners: int

    ghost function Snapshot(): Sys
      reads this, reconciler
    {
      Sys(reconciler.fleet, queue, globalMaxRunners, calls, log)
    }

    ghost predicate Valid()
      reads this, reconciler
    {
      reconciler.Valid() && globalMaxRunners > 0
    }

    constructor (r: Reconciler, engine: Engine, globalMax: int, hasRecorder: bool, grace: int)
      requires r.Valid()
      ensures Valid() && reconciler == r && state == Stopped
      ensures Snapshot() == Sys(r.fleet, [], if globalMax <= 0 then 20 else globalMax, 0, [])
      ensures this.engine == engine && this.hasRecorder == hasRecorder
      ensures scaleToZeroGrace == if grace <= 0 then 300 else grace
    {
      reconciler, this.engine, this.hasRecorder := r, engine, hasRecorder;
      scaleToZeroGrace := if grace <= 0 then DEFAULT_SCALE_TO_ZERO_GRACE else grace;
      calls, log, queue, state := 0, [], [], Stopped;
      globalMaxRunners := if globalMax <= 0 then DEFAULT_TOTAL_ALLOWED_RUNNERS else globalMax;
    }

    // -------------------------------------------------------------- counting

    method TotalActiveRunners() returns (count: nat)
      requires Valid()
      ensures count == Total(reconciler.fleet)
    {
      count := reconciler.TotalRunning();
    }

    method QueueLengthForPool(pool: string) returns (count: nat)
      ensures count == Queued(queue, pool)
    {
      count := 0;
      for i := 0 to |queue|
        invariant count == Queued(queue[..i], pool)
      {
        assert queue[..i + 1] == queue[..i] + [queue[i]];
        ForPoolSnoc(queue[..i], queue[i], pool);
        if queue[i].poolName == pool {
          count := count + 1;
        }
      }
      assert queue[..|queue|] == queue;
    }

    /** The tally every spawn path takes from a snapshot. */
    static method Tally(rs: seq<RunnerStatus>) returns (active: nat, idle: seq<RunnerStatus>)
      ensures active == |RunningOf(rs)| && idle == IdleOf(rs)
    {
      active, idle := 0, [];
      for i := 0 to |rs|
        invariant active == |RunningOf(rs[..i])| && idle == IdleOf(rs[..i])
      {
        assert rs[..i + 1][..i] == rs[..i];
        if rs[i].state.Running? {
          active := active + 1;
          if !rs[i].isBusy {
            idle := idle + [rs[i]];
          }
        }
      }
      assert rs[..|rs|] == rs;
    }

    method PoolActive(pool: string) returns (active: nat)
      requires Valid()
      ensures active == Count(reconciler.fleet, pool)
    {
      var rs := reconciler.TrackedPoolRunners(pool);
      ListingCount(reconciler.fleet, pool, rs);
      var idle: seq<RunnerStatus>;
      active, idle := Tally(rs);
    }

    // -------------------------------------------------------------- spawning

    method EnqueueRequest(pool: string, url: string)
      modifies this`queue
      ensures Snapshot() == Enqueue(old(Snapshot()), pool, url)
    {
      queue := queue + [Request(pool, url)];
    }

    method SpawnSingleRunner(p: Pool, onDemand: bool, url: string) returns (ok: bool)
      requires Valid()
      modifies this`calls, this`log, reconciler
      ensures Valid()
      ensures Attempt(ok, Snapshot()) == SpawnRunner(engine, old(Snapshot()), p, onDemand, url)
    {
      var target := if url == "" then p.repositoryUrl else url;
      var outcome := engine.spawn(calls);
      calls := calls + 1;
      match outcome
      case SpawnFailed => ok := false;
      case Spawned(id, name, at) =>
        var r := RunnerStatus(id, name, p.name, Running, at, false, onDemand, target);
        log := log + [Spawn(SlotOf(r), target)];
        reconciler.TrackRunner(r);
        ok := true;
    }

    method DrainQueue(db: Option<seq<Pool>>)
      requires Valid()
      modifies this`calls, this`log, this`queue, reconciler
      ensures Valid()
      ensures Snapshot() == DrainedBy(engine, db, old(Snapshot()))
    {
      if |queue| == 0 || db.None? {
        return;
      }
      hide HandleRequest, WellNamed, ByName, WellKeyed, Agrees;
      var poolMap := LoadMap(db.value);
      var remaining := DrainCopy(poolMap, queue);
      queue := remaining;
    }

    method DrainCopy(poolMap: Pools, copy: seq<Request>) returns (remaining: seq<Request>)
      requires Valid() && WellNamed(poolMap)
      modifies this`calls, this`log, reconciler
      ensures Valid()
      ensures var d := DrainLoop(engine, poolMap, old(Snapshot()), copy);
              Snapshot() == d.sys && remaining == Select(copy, d.verdicts, Left)
    {
      ghost var s := Snapshot();
      assert DrainLoop(engine, poolMap, s, copy[..0]) == Drained(s, []);
      hide Valid, HandleRequest, WellNamed, DrainLoop, Select;
      ghost var verdicts: seq<Verdict> := [];
      remaining := [];
      NothingSelected(Left);
      for i := 0 to |copy|
        invariant Valid()
        invariant DrainLoop(engine, poolMap, s, copy[..i]) == Drained(Snapshot(), verdicts)
        invariant remaining == Select(copy[..i], verdicts, Left)
      {
        DrainLoopStep(engine, poolMap, s, copy, i, Left);
        var v := HandleQueued(poolMap, copy[i]);
        if v == Left {
          remaining := remaining + [copy[i]];
        }
        verdicts := verdicts + [v];
      }
      assert copy[..|copy|] == copy;
    }

    static method LoadMap(rows: seq<Pool>) returns (m: Pools)
      ensures m == ByName(rows) && WellNamed(m)
    {
      m := map[];
      for i := 0 to |rows|
        invariant m == ByName(rows[..i])
      {
        assert rows[..i + 1][..i] == rows[..i];
        m := m[rows[i].name := rows[i]];
      }
      assert rows[..|rows|] == rows;
      ByNameWellNamed(rows);
    }

    method HandleQueued(poolMap: Pools, req: Request) returns (v: Verdict)
      requires Valid() && WellNamed(poolMap)
      modifies this`calls, this`log, reconciler
      ensures Valid()
      ensures Handled(Snapshot(), v) == HandleRequest(engine, poolMap, old(Snapshot()), req)
    {
      hide Total, Count;
      var total := TotalActiveRunners();
      if globalMaxRunners > 0 && total >= globalMaxRunners {
        return Left;
      }
      if req.poolName !in poolMap {
        return Discarded;
      }
      var p := poolMap[req.poolName];
      var active := PoolActive(p.name);
      if p.maxConcurrency > 0 && active >= p.maxConcurrency {
        return Left;
      }
      var url := req.targetUrl;
      if url == "" {
        if |p.targets| > 0 {
          url := p.targets[active % |p.targets|];
        } else {
          url := p.repositoryUrl;
        }
      }
      var ok := SpawnSingleRunner(p, true, url);
      v := if ok then Served else Left;
    }

    // -------------------------------------------------------------- converging a pool

    /** Deregister and terminate (errors ignored), then untrack. */
    method Dispose(r: RunnerStatus)
      requires Valid()
      modifies this`log, reconciler
      ensures Valid()
      ensures Snapshot() == TerminateAll(old(Snapshot()), [r])
    {
      TerminateOne(Snapshot(), r);
      log := log + [Terminate(SlotOf(r))];
      reconciler.UntrackRunner(r.poolName, r.id);
    }

    method EnforceCap(p: Pool, active: nat, idle: seq<RunnerStatus>) returns (active': int, idle': seq<RunnerStatus>)
      requires Valid()
      modifies this`log, reconciler
      ensures Valid()
      ensures var k := OverCap(p, active, |idle|);
              active' == active - k && idle' == idle[k..] && Snapshot() == TerminateAll(old(Snapshot()), idle[..k])
    {
      ghost var s := Snapshot();
      TerminateNobody(s);
      active', idle' := active, idle;
      if p.maxConcurrency > 0 && active > p.maxConcurrency {
        var excess := active - p.maxConcurrency;
        var drained := 0;
        var remainingIdle := [];
        for i := 0 to |idle|
          invariant Valid() && drained == Min(i, excess)
          invariant Snapshot() == TerminateAll(s, idle[..drained]) && remainingIdle == idle[drained..i]
        {
          hide Valid, TerminateAll;
          if drained < excess {
            TerminateTwice(s, idle[..drained], [idle[i]]);
            assert idle[..drained + 1] == idle[..drained] + [idle[i]];
            Dispose(idle[i]);
            drained := drained + 1;
          } else {
            remainingIdle := remainingIdle + [idle[i]];
          }
        }
        active' := active - drained;
        idle' := remainingIdle;
      }
    }

    method DrainIdle(p: Pool, active: int, idle: seq<RunnerStatus>, target: int, now: int) returns (active': int)
      requires Valid()
      modifies this`log, reconciler
      ensures Valid()
      ensures active' == active - |Surplus(p, idle, target, now, scaleToZeroGrace)|
      ensures Snapshot() == TerminateAll(old(Snapshot()), Surplus(p, idle, target, now, scaleToZeroGrace))
    {
      hide TerminateAll, StaleOf, Valid;
      TerminateNobody(Snapshot());
      active' := active;
      if p.minIdle == 0 {
        var grace := scaleToZeroGrace;
        if p.maxLifetime > 0 && p.maxLifetime < grace {
          grace := p.maxLifetime;
        }
        active' := DrainStale(active, idle, now, grace);
      } else if |idle| > target {
        active' := DrainExcess(active, idle, |idle| - target);
      }
    }

    method DrainStale(active: int, idle: seq<RunnerStatus>, now: int, grace: int) returns (active': int)
      requires Valid()
      modifies this`log, reconciler
      ensures Valid()
      ensures active' == active - |StaleOf(idle, now, grace)|
      ensures Snapshot() == TerminateAll(old(Snapshot()), StaleOf(idle, now, grace))
    {
      hide Valid, TerminateAll;
      ghost var s := Snapshot();
      TerminateNobody(s);
      active' := active;
      for i := 0 to |idle|
        invariant Valid() && active' == active - |StaleOf(idle[..i], now, grace)|
        invariant Snapshot() == TerminateAll(s, StaleOf(idle[..i], now, grace))
      {
        ghost var done := StaleOf(idle[..i], now, grace);
        assert idle[..i + 1][..i] == idle[..i];
        if Stale(idle[i], now, grace) {
          assert StaleOf(idle[..i + 1], now, grace) == done + [idle[i]];
          TerminateTwice(s, done, [idle[i]]);
          Dispose(idle[i]);
          active' := active' - 1;
        } else {
          assert StaleOf(idle[..i + 1], now, grace) == done;
        }
      }
      assert idle[..|idle|] == idle;
    }

    method DrainExcess(active: int, idle: seq<RunnerStatus>, excess: nat) returns (active': int)
      requires Valid()
      modifies this`log, reconciler
      ensures Valid()
      ensures active' == active - Min(excess, |idle|)
      ensures Snapshot() == TerminateAll(old(Snapshot()), idle[..Min(excess, |idle|)])
    {
      hide Valid, TerminateAll;
      ghost var s := Snapshot();
      TerminateNobody(s);
      active' := active;
      var i := 0;
      while i < excess && i < |idle|
        invariant 0 <= i <= Min(excess, |idle|)
        invariant Valid() && active' == active - i && Snapshot() == TerminateAll(s, idle[..i])
      {
        TerminateTwice(s, idle[..i], [idle[i]]);
        assert idle[..i + 1] == idle[..i] + [idle[i]];
        Dispose(idle[i]);
        active' := active' - 1;
        i := i + 1;
      }
    }

    static method TargetFor(p: Pool, demand: Demand, active: nat, idle: nat) returns (target: int)
      ensures target == TargetOf(p, demand, active, idle)
    {
      target := p.minIdle;
      if demand.Polling? {
        var total := 0;
        for i := 0 to |demand.answers|
          invariant total == PollTotal(demand.answers[..i])
        {
          assert demand.answers[..i + 1][..i] == demand.answers[..i];
          if demand.answers[i].Some? {
            total := total + demand.answers[i].value;
          }
        }
        assert demand.answers[..|demand.answers|] == demand.answers;
        if total > idle {
          var deficit := total - idle;
          if active + deficit > target {
            target := active + deficit;
          }
        }
      }
      if p.maxConcurrency > 0 && target > p.maxConcurrency {
        target := p.maxConcurrency;
      }
    }

    method ReconcilePool(p: Pool, demand: Demand, now: int) returns (ok: bool, ghost v: Visit)
      requires Valid()
      modifies this`calls, this`log, this`queue, reconciler
      ensures Valid()
      ensures v.p == p && v.demand == demand && v.now == now && v.grace == scaleToZeroGrace
      ensures Taken(old(Snapshot()), v)
      ensures Attempt(ok, Snapshot()) == Converge(engine, old(Snapshot()), v)
    {
      hide Valid, ScaledDown, RunningOf, Queued, Target, Victims, SpawnLoop, Taken, Needed, Converge;
      var rs := SnapshotPool(p.name);
      v := Visit(p, rs, demand, now, scaleToZeroGrace);
      ghost var s := Snapshot();
      ConvergeParts(engine, s, v);
      if |p.targets| == 0 {
        return true, v;
      }
      var target, active := ScaleDown(p, rs, demand, now, v);
      var queued := QueueLengthForPool(p.name);
      var needed := target - (active + queued);
      if needed <= 0 {
        return true, v;
      }
      ok := SpawnNeeded(p, p.minIdle == 0 || demand.Polling?, active, needed);
    }

    method SnapshotPool(pool: string) returns (rs: seq<RunnerStatus>)
      requires Valid()
      ensures forall v: Visit :: v.p.name == pool && v.rs == rs ==> Taken(Snapshot(), v)
    {
      rs := reconciler.TrackedPoolRunners(pool);
    }

    method ScaleDown(p: Pool, rs: seq<RunnerStatus>, demand: Demand, now: int, ghost v: Visit)
      returns (target: int, active: int)
      requires Valid() && v == Visit(p, rs, demand, now, scaleToZeroGrace)
      modifies this`log, reconciler
      ensures Valid()
      ensures target == Target(v) && active == |RunningOf(rs)| - |Victims(v)|
      ensures Snapshot() == ScaledDown(old(Snapshot()), v)
    {
      hide Valid, TerminateAll, RunningOf, IdleOf, Surplus, TargetOf;
      var active0, idle0 := Tally(rs);
      target := TargetFor(p, demand, active0, |idle0|);
      var idle: seq<RunnerStatus>;
      active, idle := EnforceCap(p, active0, idle0);
      active := DrainIdle(p, active, idle, target, now);
      TerminateTwice(old(Snapshot()), idle0[..OverCap(p, active0, |idle0|)],
                     Surplus(p, idle, target, now, scaleToZeroGrace));
    }

    method SpawnNeeded(p: Pool, onDemand: bool, active: nat, needed: nat) returns (ok: bool)
      requires Valid() && p.targets != []
      modifies this`calls, this`log, this`queue, reconciler
      ensures Valid()
      ensures Attempt(ok, Snapshot()) == SpawnLoop(engine, p, onDemand, old(Snapshot()), active, needed)
    {
      hide Total, Queued, SpawnRunner;
      ghost var goal := SpawnLoop(engine, p, onDemand, Snapshot(), active, needed);
      var tally := active;
      for i := 0 to needed
        invariant Valid() && tally >= 0
        invariant SpawnLoop(engine, p, onDemand, Snapshot(), tally, needed - i) == goal
      {
        var queued := QueueLengthForPool(p.name);
        if p.maxConcurrency > 0 && tally + queued >= p.maxConcurrency {
          return true;
        }
        var url := p.targets[tally % |p.targets|];
        var total := TotalActiveRunners();
        if globalMaxRunners > 0 && total >= globalMaxRunners {
          EnqueueRequest(p.name, url);
          continue;
        }
        var spawned := SpawnSingleRunner(p, onDemand, url);
        if !spawned {
          return false;
        }
        tally := tally + 1;
      }
      ok := true;
    }

    // -------------------------------------------------------------- exits

    method ReapContainer(k: Slot, db: Option<seq<Pool>>)
      requires Valid()
      modifies this`calls, this`log, this`queue, reconciler
      ensures Valid()
      ensures Snapshot() == Reap(engine, Loaded(db), old(Snapshot()), k)
    {
      log := log + [Terminate(k)];
      reconciler.UntrackRunner(k.pool, k.id);
      hide Provisioning.DrainQueue, WellKeyed, Agrees;
      DrainQueue(db);
    }

    /** A Docker "die" or "destroy" event.  `taskHandled` says that the task exit handler claimed the
        container; `drainDb` is what the queue drain reads and `db` what is read to find the pool; `demand` is
        None if the pool's provider could not be resolved. */
    method HandleContainerEvent(isExit: bool, k: Slot, drainDb: Option<seq<Pool>>, db: Option<seq<Pool>>,
                                taskHandled: bool, demand: Option<Demand>, now: int)
      returns (ok: bool, ghost v: Option<Visit>)
      requires Valid()
      requires db.Some? ==> UniqueNames(db.value)
      modifies this`calls, this`log, this`queue, reconciler
      ensures Valid()
      ensures state in {Paused, Stopped} || !isExit ==> ok && Snapshot() == old(Snapshot())
      ensures state in {Booting, Active} && isExit && taskHandled ==>
                && ok
                && Snapshot() == DrainedBy(engine, drainDb, old(Snapshot()).(log := old(log) + [Terminate(k)]))
      ensures state in {Booting, Active} && isExit && !taskHandled ==>
                if k.pool != "" && db.Some? && k.pool in ByName(db.value) && demand.Some? then
                  && v.Some? && v.value.demand == demand.value && v.value.now == now
                  && v.value.p == ByName(db.value)[k.pool]
                  && Taken(Reap(engine, Loaded(drainDb), old(Snapshot()), k), v.value)
                  && Attempt(ok, Snapshot()) == HandleExit(engine, Loaded(drainDb), old(Snapshot()), k, v.value)
                else
                  && Snapshot() == Reap(engine, Loaded(drainDb), old(Snapshot()), k)
                  && (ok <==> k.pool == "" || (db.Some? && k.pool !in ByName(db.value)))
    {
      v := None;
      if state in {Paused, Stopped} || !isExit {
        return true, v;
      }
      hide Provisioning.DrainQueue, WellKeyed, Agrees, Reap, Converge, Listing, ByName;
      if taskHandled {
        log := log + [Terminate(k)];
        DrainQueue(drainDb);
        return true, v;
      }
      ReapContainer(k, drainDb);
      ghost var s := Snapshot();
      if k.pool == "" {
        return true, v;
      }
      if db.None? {
        return false, v;
      }
      for i := 0 to |db.value|
        invariant Valid() && Snapshot() == s
        invariant forall j :: 0 <= j < i ==> db.value[j].name != k.pool
      {
        var p := db.value[i];
        if p.name == k.pool {
          UniqueByName(db.value, i);
          if demand.None? {
            return false, v;
          }
          ghost var visit: Visit;
          ok, visit := ReconcilePool(p, demand.value, now);
          return ok, Some(visit);
        }
      }
      NotByName(db.value, k.pool);
      ok := true;
    }

    // -------------------------------------------------------------- webhooks

    /** A "queued" workflow job.  `found` is None if the pools could not be loaded, and otherwise the pool
        and target that matched, if any. */
    method HandleQueuedJob(found: Option<Option<(Pool, string)>>) returns (ok: bool)
      requires Valid()
      modifies this`calls, this`log, this`queue, reconciler
      ensures Valid()
      ensures state == Stopped ==> !ok && Snapshot() == old(Snapshot())
      ensures state == Paused ==> ok && Snapshot() == old(Snapshot())
      ensures state in {Booting, Active} && found.None? ==> !ok && Snapshot() == old(Snapshot())
      ensures state in {Booting, Active} && found == Some(None) ==> ok && Snapshot() == old(Snapshot())
      ensures state in {Booting, Active} && found.Some? && found.value.Some? ==>
                Attempt(ok, Snapshot()) == ServeJob(engine, old(Snapshot()), found.value.value.0, found.value.value.1)
    {
      if state == Stopped {
        return false;
      }
      if state == Paused {
        return true;
      }
      if found.None? {
        return false;
      }
      if found.value.None? {
        return true;
      }
      hide Valid, CapFull, QuotaFull;
      var (p, url) := found.value.value;
      var settled := CheckCapacity(p, url);
      if settled {
        return true;
      }
      ok := ProvisionLocked(p, url);
    }

    /** The capacity check made before taking the provisioning lock, and again under it: at the cap the
        event is dropped, with the quota full it is queued. */
    method CheckCapacity(p: Pool, url: string) returns (settled: bool)
      requires Valid()
      modifies this`queue
      ensures Valid()
      ensures settled == (CapFull(old(reconciler.fleet), p) || QuotaFull(old(Snapshot())))
      ensures Snapshot() == if !CapFull(old(reconciler.fleet), p) && QuotaFull(old(Snapshot()))
                            then Enqueue(old(Snapshot()), p.name, url) else old(Snapshot())
    {
      hide Total, Count;
      var active := PoolActive(p.name);
      if p.maxConcurrency > 0 && active >= p.maxConcurrency {
        return true;
      }
      var total := TotalActiveRunners();
      if globalMaxRunners > 0 && total >= globalMaxRunners {
        EnqueueRequest(p.name, url);
        return true;
      }
      settled := false;
    }

    method ProvisionLocked(p: Pool, url: string) returns (ok: bool)
      requires Valid()
      modifies this`calls, this`log, this`queue, reconciler
      ensures Valid()
      ensures Attempt(ok, Snapshot()) == ServeJob(engine, old(Snapshot()), p, url)
    {
      hide Valid, CapFull, QuotaFull;
      var settled := CheckCapacity(p, url);
      if settled {
        return true;
      }
      ok := SpawnSingleRunner(p, true, url);
    }

    /** "in_progress" and "completed" jobs set the busy mark of the named runner. */
    method HandleJobProgress(runner: string, busy: bool) returns (ghost hit: seq<Slot>)
      requires Valid()
      modifies reconciler
      ensures Valid()
      ensures hit == [] ==>
                && Snapshot() == old(Snapshot())
                && (|| state in {Stopped, Paused} || runner == ""
                    || forall k :: k in reconciler.fleet ==>
                                     reconciler.fleet[k].id != runner && reconciler.fleet[k].name != runner)
      ensures hit != [] ==>
                && state !in {Stopped, Paused} && runner != ""
                && hit[0] in old(reconciler.fleet)
                && (old(reconciler.fleet)[hit[0]].id == runner || old(reconciler.fleet)[hit[0]].name == runner)
                && Snapshot() == Apply(engine, old(Snapshot()), MarkBusy(hit[0], busy))
    {
      hide WellKeyed, Agrees;
      hit := [];
      if state !in {Stopped, Paused} && runner != "" {
        hit := reconciler.MarkRunnerBusy(runner, busy);
      }
    }

    // -------------------------------------------------------------- hung runners, removed pools

    /** `answers` is what each queue drain reads, told apart by the number of effects before it. */
    method CheckHungRunners(rows: seq<Pool>, answers: nat -> Option<seq<Pool>>, now: int)
      returns (ghost work: seq<Check>)
      requires Valid()
      modifies this`calls, this`log, this`queue, reconciler
      ensures Valid()
      ensures SnapshotsTaken(Pass(engine, LoadedEach(answers), hasRecorder, now), old(Snapshot()), work)
      ensures Snapshot() == HungPass(Pass(engine, LoadedEach(answers), hasRecorder, now), old(Snapshot()), work)
      ensures forall p :: p in rows && p.maxLifetime > 0 ==> IsChecked(work, p)
    {
      work := [];
      ghost var c := Pass(engine, LoadedEach(answers), hasRecorder, now);
      ghost var s := Snapshot();
      for i := 0 to |rows|
        invariant Valid()
        invariant SnapshotsTaken(c, s, work) && Snapshot() == HungPass(c, s, work)
        invariant forall j :: 0 <= j < i && rows[j].maxLifetime > 0 ==> IsChecked(work, rows[j])
      {
        hide HungLoop, Listing, WellKeyed, Agrees, HungPass, SnapshotsTaken, IsChecked, LoadedEach;
        var p := rows[i];
        if p.maxLifetime > 0 {
          var rs := reconciler.TrackedPoolRunners(p.name);
          PassSnoc(c, s, work, Check(p, rs));
          KillHungIn(p, rs, answers, now);
          CheckedSnoc(work, Check(p, rs));
          work := work + [Check(p, rs)];
        }
      }
    }

    method KillHungIn(p: Pool, rs: seq<RunnerStatus>, answers: nat -> Option<seq<Pool>>, now: int)
      requires Valid()
      modifies this`calls, this`log, this`queue, reconciler
      ensures Valid()
      ensures Snapshot() == HungLoop(Pass(engine, LoadedEach(answers), hasRecorder, now), old(Snapshot()), p, rs)
    {
      ghost var c := Pass(engine, LoadedEach(answers), hasRecorder, now);
      ghost var s := Snapshot();
      hide KillHung, LoadedEach;
      for i := 0 to |rs|
        invariant Valid() && Snapshot() == HungLoop(c, s, p, rs[..i])
      {
        assert rs[..i + 1][..i] == rs[..i];
        if rs[i].state.Running? && rs[i].spawnedAt != 0 && p.maxLifetime > 0 && now - rs[i].spawnedAt > p.maxLifetime {
          KillOne(SlotOf(rs[i]), answers, now);
        }
      }
      assert rs[..|rs|] == rs;
    }

    method KillOne(k: Slot, answers: nat -> Option<seq<Pool>>, ghost now: int)
      requires Valid()
      modifies this`calls, this`log, this`queue, reconciler
      ensures Valid()
      ensures Snapshot() == KillHung(Pass(engine, LoadedEach(answers), hasRecorder, now), old(Snapshot()), k)
    {
      log := log + [Terminate(k)];
      reconciler.UntrackRunner(k.pool, k.id);
      if hasRecorder {
        log := log + [RecordTimeout(k)];
      } else {
        assert old(log) + [Terminate(k)] + [] == old(log) + [Terminate(k)];
      }
      hide Provisioning.DrainQueue, WellKeyed, Agrees;
      DrainQueue(answers(|log|));
    }

    /** A pool that left the database: terminate its running runners, drop its requests. */
    method DrainRemovedPool(pool: string) returns (ghost rs: seq<RunnerStatus>)
      requires Valid()
      modifies this`log, this`queue, reconciler
      ensures Valid()
      ensures Listing(old(reconciler.fleet), pool, rs)
      ensures Snapshot() == DrainPool(old(Snapshot()), pool, rs)
    {
      var tracked := reconciler.TrackedPoolRunners(pool);
      rs := tracked;
      DisposeRunning(tracked);
      var remaining := [];
      for i := 0 to |queue|
        invariant remaining == WithoutPool(queue[..i], pool)
      {
        assert queue[..i + 1][..i] == queue[..i];
        if queue[i].poolName != pool {
          remaining := remaining + [queue[i]];
        }
      }
      assert queue[..|queue|] == queue;
      queue := remaining;
    }

    method DisposeRunning(rs: seq<RunnerStatus>)
      requires Valid()
      modifies this`log, reconciler
      ensures Valid()
      ensures Snapshot() == TerminateAll(old(Snapshot()), RunningOf(rs))
    {
      hide Valid, TerminateAll;
      ghost var s := Snapshot();
      TerminateNobody(s);
      for i := 0 to |rs|
        invariant Valid() && Snapshot() == TerminateAll(s, RunningOf(rs[..i]))
      {
        ghost var done := RunningOf(rs[..i]);
        assert rs[..i + 1] == rs[..i] + [rs[i]];
        FilterSnoc(rs[..i], rs[i]);
        if rs[i].state.Running? {
          TerminateTwice(s, done, [rs[i]]);
          Dispose(rs[i]);
        }
      }
      assert rs[..|rs|] == rs;
    }

    // -------------------------------------------------------------- shutting down

    method Pause()
      modifies this`state
      ensures state == if old(state) == Active then Paused else old(state)
    {
      if state == Active {
        state := Paused;
      }
    }

    method Resume()
      modifies this`state
      ensures state == if old(state) == Paused then Active else old(state)
    {
      if state == Paused {
        state := Active;
      }
    }

    method DismissRunners(pick: Pick, tidy: bool) returns (ghost order: seq<Slot>)
      requires Valid() && !pick.NotIn?
      modifies this`log, reconciler
      ensures Valid()
      ensures var slots := if pick.IdleOnly? then Idle(old(reconciler.fleet)) else RunningSlots(old(reconciler.fleet));
              Lists(order, slots) && Snapshot() == Dismiss(old(Snapshot()), slots, order)
    {
      assert Picked(reconciler.fleet, AnyRunning) == RunningSlots(reconciler.fleet);
      assert Picked(reconciler.fleet, IdleOnly) == Idle(reconciler.fleet);
      var dropped := reconciler.DropPicked(pick, tidy);
      order := dropped;
      log := log + Terminations(dropped);
    }

    method ImmediateShutdown() returns (ghost order: seq<Slot>)
      requires Valid()
      modifies this`log, this`state, reconciler
      ensures Valid() && state == Stopped
      ensures Lists(order, RunningSlots(old(reconciler.fleet)))
      ensures Snapshot() == Immediate(old(Snapshot()), order) && Total(reconciler.fleet) == 0
    {
      Pause();
      order := DismissRunners(AnyRunning, true);
      DismissAll(old(Snapshot()), order);
      state := Stopped;
    }

    /** `ticks` are the polls that complete before the deadline or the cancellation. */
    method GracefulShutdown(ticks: seq<EngineTick>) returns (ghost idle: seq<Slot>, ghost rest: seq<Slot>)
      requires Valid()
      modifies this`calls, this`log, this`queue, this`state, reconciler
      ensures Valid() && state == Stopped
      ensures Lists(idle, Idle(old(reconciler.fleet)))
      ensures Snapshot() == Graceful(engine, old(Snapshot()), idle, Ticks(ticks), rest) && Total(reconciler.fleet) == 0
      ensures !BeforeForce(engine, old(Snapshot()), idle, Ticks(ticks)).done ==>
                Lists(rest, RunningSlots(BeforeForce(engine, old(Snapshot()), idle, Ticks(ticks)).sys.fleet))
    {
      hide Total, Lists, WellKeyed, Agrees, Idle, RunningSlots, Dismiss, Wait, Ticks;
      Pause();
      rest := [];
      idle := DismissRunners(IdleOnly, false);
      var total := TotalActiveRunners();
      if total == 0 {
        state := Stopped;
        return;
      }
      var done := WaitForRunners(ticks);
      if !done {
        rest := DismissRunners(AnyRunning, true);
      }
      ShutdownLeavesNothingRunning(engine, old(Snapshot()), idle, Ticks(ticks), rest);
      state := Stopped;
    }

    method WaitForRunners(ticks: seq<EngineTick>) returns (done: bool)
      requires Valid()
      modifies this`calls, this`log, this`queue, reconciler
      ensures Valid()
      ensures Waited(done, Snapshot()) == Wait(engine, old(Snapshot()), Ticks(ticks))
    {
      hide Valid, AuditAndReap, Total;
      ghost var goal := Wait(engine, Snapshot(), Ticks(ticks));
      assert ticks[0..] == ticks;
      for i := 0 to |ticks|
        invariant Valid() && Wait(engine, Snapshot(), Ticks(ticks[i..])) == goal
      {
        ghost var left := ticks[i..];
        TicksTail(left);
        assert left[1..] == ticks[i + 1..];
        PollEngine(ticks[i]);
        var total := TotalActiveRunners();
        if total == 0 {
          return true;
        }
      }
      done := false;
    }

    method PollEngine(tick: EngineTick)
      requires Valid()
      modifies this`calls, this`log, this`queue, reconciler
      ensures Valid()
      ensures Snapshot() == AuditAndReap(engine, old(Snapshot()), AsTick(tick))
    {
      if tick.live.None? {
        return;
      }
      hide AuditFleet, ExitedOf, Overlaid, Adopted, ReapAll;
      var report, gone := reconciler.Audit(tick.live.value);
      ReapExited(report.exited, tick.db);
    }

    method ReapExited(exited: seq<RunnerStatus>, db: nat -> Option<seq<Pool>>)
      requires Valid()
      modifies this`calls, this`log, this`queue, reconciler
      ensures Valid()
      ensures Snapshot() == ReapAll(engine, LoadedEach(db), old(Snapshot()), exited)
    {
      hide Valid, Reap;
      ghost var s := Snapshot();
      for i := 0 to |exited|
        invariant Valid() && Snapshot() == ReapAll(engine, LoadedEach(db), s, exited[..i])
      {
        assert exited[..i + 1][..i] == exited[..i];
        ReapContainer(SlotOf(exited[i]), db(i));
      }
      assert exited[..|exited|] == exited;
    }

    // -------------------------------------------------------------- the reconciliation cycle

    /** The state was reached from `start` by the steps `es`. */
    ghost predicate Reached(start: Sys, es: seq<Event>)
      reads this, reconciler
    {
      IsRun(engine, start, es) && Execute(engine, start, es) == Snapshot()
    }

    /** One cycle of the control loop is a run of the steps that `Runs` bounds, in this order: audit and
        reap, refresh the quota, drain the queue, drain removed pools, kill hung runners, converge every
        pool. */
    method Reconcile(c: Cycle) returns (ok: bool, ghost t: Trace)
      requires Valid()
      modifies this`calls, this`log, this`queue, this`globalMaxRunners, reconciler
      ensures Valid() && Reached(old(Snapshot()), Flat(t))
      ensures state in {Paused, Stopped} ==> ok && Flat(t) == []
      ensures state in {Booting, Active} ==>
                ok == c.db.Some? && CycleTrace(c, engine, old(Snapshot()), hasRecorder, scaleToZeroGrace, t)
      ensures globalMaxRunners == if state !in {Paused, Stopped} && c.setting.Some? && c.setting.value > 0
                                  then c.setting.value else old(globalMaxRunners)
    {
      t := Trace([], [], [], [], [], []);
      ghost var start := Snapshot();
      assert Flat(t) == [];
      StartsHere(start);
      if state in {Paused, Stopped} {
        return true, t;
      }
      hide Valid, Reached, PoolRemovals, HungEvents, Visits, AuditEvents, QuotaEvents;
      ghost var es := AuditPhase(c.live, c.reapReads, start);
      t := t.(audit := es);
      assert globalMaxRunners == old(globalMaxRunners);
      ghost var quota := RefreshQuota(c.setting, start, es);
      ghost var refreshed := globalMaxRunners;
      es := es + quota;
      ghost var drain := DrainPhase(c.drainRead, start, es);
      es := es + drain;
      t := t.(quota := quota, drain := drain);
      assert Flat(t) == es;
      assert globalMaxRunners == refreshed;
      if c.db.None? {
        return false, t;
      }
      ghost var removals := RemovedPoolsPhase(c.db.value, start, es);
      ghost var hung := HungPhase(c.db.value, c.hungReads, c.hungAt, start, es + removals);
      ghost var visits := ConvergePhase(c.db.value, c.demands, c.clock, start, es + removals + hung);
      t := t.(removals := removals, hung := hung, visits := visits);
      assert Flat(t) == es + removals + hung + visits;
      ok := true;
    }

    lemma StartsHere(start: Sys)
      requires start == Snapshot()
      ensures Reached(start, [])
    {
    }

    method AuditPhase(live: Option<seq<RunnerStatus>>, answers: nat -> Option<seq<Pool>>, ghost start: Sys)
      returns (ghost es: seq<Event>)
      requires Valid() && start == Snapshot()
      modifies this`calls, this`log, this`queue, reconciler
      ensures Valid() && Reached(start, es) && es == AuditEvents(live, answers, start.fleet)
    {
      hide Reached, Apply, WellKeyed, Agrees, Overlaid, ExitedOf;
      es := [];
      StartsHere(start);
      if live.Some? {
        var report := AuditStep(live.value, start);
        es := [Audit(live.value)];
        assert Reaps(report.exited[..0], answers) == [];
        for i := 0 to |report.exited|
          invariant Valid() && Reached(start, es)
          invariant es == [Audit(live.value)] + Reaps(report.exited[..i], answers)
        {
          ReapsSnoc(report.exited, i, answers);
          es := ReapStep(SlotOf(report.exited[i]), answers(i), start, es);
        }
        assert report.exited[..|report.exited|] == report.exited;
      }
    }

    method AuditStep(live: seq<RunnerStatus>, ghost start: Sys) returns (report: AuditReport)
      requires Valid() && start == Snapshot() && Reached(start, [])
      modifies reconciler
      ensures Valid() && Reached(start, [Audit(live)])
      ensures report.exited == ExitedOf(Overlaid(start.fleet, live))
    {
      hide AuditFleet, Adopted, Overlaid, ExitedOf, IsRun, Execute, Enabled;
      ghost var gone: seq<Slot>;
      report, gone := reconciler.Audit(live);
      assert Enabled(engine, old(Snapshot()), Audit(live)) by { AuditEnabled(engine, old(Snapshot()), live); }
      RunSnoc(engine, start, [], Audit(live));
      assert [] + [Audit(live)] == [Audit(live)];
    }

    method ReapStep(k: Slot, db: Option<seq<Pool>>, ghost start: Sys, ghost es: seq<Event>)
      returns (ghost es': seq<Event>)
      requires Valid() && Reached(start, es)
      modifies this`calls, this`log, this`queue, reconciler
      ensures Valid() && Reached(start, es') && es' == es + [ReapOne(k, Loaded(db))]
    {
      hide Reap, IsRun, Execute, Valid;
      ReapContainer(k, db);
      NamedLoaded(db);
      RunSnoc(engine, start, es, ReapOne(k, Loaded(db)));
      es' := es + [ReapOne(k, Loaded(db))];
    }

    method RefreshQuota(setting: Option<int>, ghost start: Sys, ghost es: seq<Event>) returns (ghost more: seq<Event>)
      requires Valid() && Reached(start, es)
      modifies this`globalMaxRunners
      ensures Valid() && Reached(start, es + more) && more == QuotaEvents(setting)
      ensures globalMaxRunners == if setting.Some? && setting.value > 0 then setting.value else old(globalMaxRunners)
    {
      hide IsRun, Execute;
      more := [];
      assert es + [] == es;
      if setting.Some? && setting.value > 0 {
        globalMaxRunners := setting.value;
        RunSnoc(engine, start, es, SetQuota(setting.value));
        more := [SetQuota(setting.value)];
      }
    }

    method DrainPhase(db: Option<seq<Pool>>, ghost start: Sys, ghost es: seq<Event>) returns (ghost more: seq<Event>)
      requires Valid() && Reached(start, es)
      modifies this`calls, this`log, this`queue, reconciler
      ensures Valid() && Reached(start, es + more) && more == [DrainStep(Loaded(db))]
    {
      hide IsRun, Execute, Valid, Provisioning.DrainQueue;
      DrainQueue(db);
      NamedLoaded(db);
      RunSnoc(engine, start, es, DrainStep(Loaded(db)));
      more := [DrainStep(Loaded(db))];
    }

    method RemovedPoolsPhase(rows: seq<Pool>, ghost start: Sys, ghost es: seq<Event>) returns (ghost more: seq<Event>)
      requires Valid() && Reached(start, es)
      modifies this`calls, this`log, this`queue, reconciler
      ensures Valid() && Reached(start, es + more) && PoolRemovals(more, ByName(rows), Execute(engine, start, es).fleet)
    {
      var current := LoadMap(rows);
      hide ByName, WellNamed;
      var removed := reconciler.tracked.Keys - current.Keys;
      ghost var f := reconciler.fleet;
      more := [];
      assert es + [] == es;
      assert Removing(more, current, f, removed);
      hide Valid, Reached, Removing, IsRun, Execute;
      while removed != {}
        invariant Valid() && Reached(start, es + more) && Removing(more, current, f, removed)
        decreases removed
      {
        var pool :| pool in removed;
        ghost var e := RemoveStep(pool, start, es + more);
        RemovingStep(more, e, current, f, removed);
        assert es + more + [e] == es + (more + [e]);
        more := more + [e];
        removed := removed - {pool};
      }
    }

    method RemoveStep(pool: string, ghost start: Sys, ghost es: seq<Event>) returns (ghost e: Event)
      requires Valid() && Reached(start, es)
      modifies this`log, this`queue, reconciler
      ensures Valid() && Reached(start, es + [e]) && e.RemovePool? && e.pool == pool
    {
      hide IsRun, Execute, Valid, DrainPool, Listing;
      ghost var rs := DrainRemovedPool(pool);
      RunSnoc(engine, start, es, RemovePool(pool, rs));
      e := RemovePool(pool, rs);
    }

    method HungPhase(rows: seq<Pool>, answers: nat -> Option<seq<Pool>>, now: int, ghost start: Sys,
                     ghost es: seq<Event>)
      returns (ghost more: seq<Event>)
      requires Valid() && Reached(start, es)
      modifies this`calls, this`log, this`queue, reconciler
      ensures Valid() && Reached(start, es + more) && HungEvents(more, rows, LoadedEach(answers), hasRecorder, now)
    {
      hide IsRun, Execute, Valid, HungPass, SnapshotsTaken, IsChecked;
      ghost var work := CheckHungRunners(rows, answers, now);
      NamedEach(answers);
      ghost var e := CheckHung(LoadedEach(answers), hasRecorder, now, work);
      RunSnoc(engine, start, es, e);
      more := [e];
    }

    method ConvergePhase(rows: seq<Pool>, demands: nat -> Option<Demand>, clock: nat -> int, ghost start: Sys,
                         ghost es: seq<Event>)
      returns (ghost more: seq<Event>)
      requires Valid() && Reached(start, es)
      modifies this`calls, this`log, this`queue, reconciler
      ensures Valid() && Reached(start, es + more) && Visits(more, rows, demands, clock, scaleToZeroGrace)
    {
      more := [];
      assert es + [] == es;
      assert Visits([], rows[..0], demands, clock, scaleToZeroGrace);
      hide Valid, Reached, Visits;
      for i := 0 to |rows|
        invariant Valid() && Reached(start, es + more)
        invariant Visits(more, rows[..i], demands, clock, scaleToZeroGrace)
      {
        var p := rows[i];
        if demands(i).Some? {
          ghost var v := ConvergeStep(p, demands(i).value, clock(i), start, es + more);
          assert es + more + [VisitPool(v)] == es + (more + [VisitPool(v)]);
          VisitsSnoc(more, rows, i, demands, clock, scaleToZeroGrace, v);
          more := more + [VisitPool(v)];
        } else {
          VisitsSkip(more, rows, i, demands, clock, scaleToZeroGrace);
        }
      }
      assert rows[..|rows|] == rows;
    }

    method ConvergeStep(p: Pool, demand: Demand, now: int, ghost start: Sys, ghost es: seq<Event>)
      returns (ghost v: Visit)
      requires Valid() && Reached(start, es)
      modifies this`calls, this`log, this`queue, reconciler
      ensures Valid() && Reached(start, es + [VisitPool(v)])
      ensures v.p == p && v.demand == demand && v.now == now && v.grace == scaleToZeroGrace
    {
      hide IsRun, Execute, Valid, Converge, Listing, WellKeyed;
      var ok: bool;
      ok, v := ReconcilePool(p, demand, now);
      RunSnoc(engine, start, es, VisitPool(v));
    }
  }

  // ---------------------------------------------------------------- rows and polls

  /** Pool names are unique in the database. */
  ghost predicate UniqueNames(rows: seq<Pool>) {
    forall i, j :: 0 <= i < j < |rows| ==> rows[i].name != rows[j].name
  }

  lemma {:induction false} UniqueByName(rows: seq<Pool>, i: nat)
    requires UniqueNames(rows) && i < |rows|
    ensures rows[i].name in ByName(rows) && ByName(rows)[rows[i].name] == rows[i]
  {
    var n := |rows| - 1;
    if i < n {
      UniqueByName(rows[..n], i);
    }
  }

  lemma {:induction false} NotByName(rows: seq<Pool>, name: string)
    requires forall j :: 0 <= j < |rows| ==> rows[j].name != name
    ensures name !in ByName(rows)
  {
    if rows != [] {
      NotByName(rows[..|rows| - 1], name);
    }
  }

  /** One poll of the engine while shutting down: the live list, None on error, and the pools read after
      each reap. */
  datatype EngineTick = EngineTick(live: Option<seq<RunnerStatus>>, db: nat -> Option<seq<Pool>>)

  ghost function AsTick(t: EngineTick): Tick {
    if t.live.Some? then Audited(t.live.value, LoadedEach(t.db)) else AuditFailed
  }

  ghost function Ticks(ts: seq<EngineTick>): seq<Tick> {
    seq(|ts|, i requires 0 <= i < |ts| => AsTick(ts[i]))
  }

  lemma TicksTail(ts: seq<EngineTick>)
    requires ts != []
    ensures Ticks(ts)[0] == AsTick(ts[0]) && Ticks(ts)[1..] == Ticks(ts[1..])
  {
  }

  // ---------------------------------------------------------------- unfolding the specifications

  lemma NothingSelected(v: Verdict)
    ensures Select([], [], v) == []
  {
  }

  lemma DrainLoopStep(o: Engine, pools: Pools, s: Sys, q: seq<Request>, i: nat, v: Verdict)
    requires i < |q|
    ensures var d := DrainLoop(o, pools, s, q[..i]);
            var h := HandleRequest(o, pools, d.sys, q[i]);
            && DrainLoop(o, pools, s, q[..i + 1]) == Drained(h.sys, d.verdicts + [h.verdict])
            && (h.verdict == v ==>
                  Select(q[..i + 1], d.verdicts + [h.verdict], v) == Select(q[..i], d.verdicts, v) + [q[i]])
            && (h.verdict != v ==> Select(q[..i + 1], d.verdicts + [h.verdict], v) == Select(q[..i], d.verdicts, v))
  {
    hide HandleRequest;
    assert q[..i + 1][..i] == q[..i];
    var d := DrainLoop(o, pools, s, q[..i]);
    SelectSnoc(q[..i + 1], d.verdicts, HandleRequest(o, pools, d.sys, q[i]).verdict, v);
  }

  lemma ConvergeParts(o: Engine, s: Sys, v: Visit)
    requires Taken(s, v)
    ensures |Victims(v)| <= |RunningOf(v.rs)| && ScaledDown(s, v).queue == s.queue
    ensures Needed(s, v) == Target(v) - (|RunningOf(v.rs)| - |Victims(v)| + Queued(s.queue, v.p.name))
    ensures v.p.targets == [] ==> Converge(o, s, v) == Attempt(true, s)
    ensures v.p.targets != [] && Needed(s, v) <= 0 ==> Converge(o, s, v) == Attempt(true, ScaledDown(s, v))
    ensures v.p.targets != [] && Needed(s, v) > 0 ==>
              Converge(o, s, v) == SpawnLoop(o, v.p, v.p.minIdle == 0 || v.demand.Polling?, ScaledDown(s, v),
                                             |RunningOf(v.rs)| - |Victims(v)|, Needed(s, v))
  {
    VictimsBounded(s, v);
    hide Victims, Target, Queued, RunningOf, Taken;
  }

  ghost predicate IsChecked(work: seq<Check>, p: Pool) {
    exists i :: 0 <= i < |work| && work[i].p == p
  }

  lemma CheckedSnoc(work: seq<Check>, c: Check)
    ensures IsChecked(work + [c], c.p)
    ensures forall p :: IsChecked(work, p) ==> IsChecked(work + [c], p)
  {
    var next := work + [c];
    assert next[|work|] == c;
    forall p | IsChecked(work, p) ensures IsChecked(next, p) {
      var i :| 0 <= i < |work| && work[i].p == p;
      assert next[i].p == p;
    }
  }

  lemma PassSnoc(c: Pass, s: Sys, work: seq<Check>, check: Check)
    requires SnapshotsTaken(c, s, work) && Listing(HungPass(c, s, work).fleet, check.p.name, check.rs)
    ensures SnapshotsTaken(c, s, work + [check])
    ensures HungPass(c, s, work + [check]) == HungLoop(c, HungPass(c, s, work), check.p, check.rs)
  {
    assert (work + [check])[..|work|] == work;
  }

  // ---------------------------------------------------------------- the cycle as a run

  /** What one cycle reads: the live list (None if the audit failed), the pools for the queue drain after
      each reap, the total_allowed_runners setting (None if absent or not a number), the pools for the queue
      drain, the pools themselves (each None on error), the pools for the queue drain after each hung runner
      and the clock for that pass, and for the i-th pool its demand (None if its provider could not be
      resolved) and the clock. */
  datatype Cycle = Cycle(
    live: Option<seq<RunnerStatus>>, reapReads: nat -> Option<seq<Pool>>, setting: Option<int>,
    drainRead: Option<seq<Pool>>, db: Option<seq<Pool>>, hungReads: nat -> Option<seq<Pool>>, hungAt: int,
    demands: nat -> Option<Demand>, clock: nat -> int)

  /** The steps of one cycle, phase by phase. */
  datatype Trace = Trace(audit: seq<Event>, quota: seq<Event>, drain: seq<Event>,
                         removals: seq<Event>, hung: seq<Event>, visits: seq<Event>)

  ghost function Flat(t: Trace): seq<Event> {
    t.audit + t.quota + t.drain + t.removals + t.hung + t.visits
  }

  ghost function Reaps(exited: seq<RunnerStatus>, answers: nat -> Option<seq<Pool>>): seq<Event> {
    seq(|exited|, i requires 0 <= i < |exited| => ReapOne(SlotOf(exited[i]), Loaded(answers(i))))
  }

  lemma ReapsSnoc(exited: seq<RunnerStatus>, i: nat, answers: nat -> Option<seq<Pool>>)
    requires i < |exited|
    ensures Reaps(exited[..i + 1], answers) ==
            Reaps(exited[..i], answers) + [ReapOne(SlotOf(exited[i]), Loaded(answers(i)))]
  {
    hide Loaded;
  }

  /** An audit that worked, then a reap of every container it found exited. */
  ghost function AuditEvents(live: Option<seq<RunnerStatus>>, answers: nat -> Option<seq<Pool>>, f: Fleet): seq<Event> {
    if live.None? then [] else [Audit(live.value)] + Reaps(ExitedOf(Overlaid(f, live.value)), answers)
  }

  ghost function QuotaEvents(setting: Option<int>): seq<Event> {
    if setting.Some? && setting.value > 0 then [SetQuota(setting.value)] else []
  }

  ghost predicate Removes(es: seq<Event>, pool: string) {
    exists i :: 0 <= i < |es| && es[i].RemovePool? && es[i].pool == pool
  }

  /** `es` drains each tracked pool that left the database once, except those in `left`, still to come. */
  ghost predicate Removing(es: seq<Event>, pools: Pools, f: Fleet, left: set<string>) {
    && left !! pools.Keys
    && (forall i :: 0 <= i < |es| ==> es[i].RemovePool? && es[i].pool !in pools && es[i].pool !in left)
    && (forall i, j :: 0 <= i < j < |es| ==> es[i].pool != es[j].pool)
    && (forall k :: k in f && k.pool !in pools && k.pool !in left ==> Removes(es, k.pool))
  }

  lemma RemovingStep(es: seq<Event>, e: Event, pools: Pools, f: Fleet, left: set<string>)
    requires e.RemovePool? && e.pool in left && Removing(es, pools, f, left)
    ensures Removing(es + [e], pools, f, left - {e.pool})
  {
    var next := es + [e];
    assert next[|es|] == e;
    forall k | k in f && k.pool !in pools && k.pool !in left - {e.pool} ensures Removes(next, k.pool) {
      if k.pool != e.pool {
        var i :| 0 <= i < |es| && es[i].RemovePool? && es[i].pool == k.pool;
        assert next[i] == es[i];
      }
    }
  }

  /** Every pool with a tracked runner that left the database is drained once, and no other. */
  ghost predicate PoolRemovals(es: seq<Event>, pools: Pools, f: Fleet) {
    Removing(es, pools, f, {})
  }

  /** One pass over every pool with a lifetime. */
  ghost predicate HungEvents(es: seq<Event>, rows: seq<Pool>, answers: nat -> Option<Pools>, recorder: bool, now: int) {
    && |es| == 1 && es[0].CheckHung? && es[0] == CheckHung(answers, recorder, now, es[0].work)
    && forall p :: p in rows && p.maxLifetime > 0 ==> IsChecked(es[0].work, p)
  }

  /** Each pool whose provider could be resolved is converged once, in order, towards its own demand. */
  ghost predicate Visits(es: seq<Event>, rows: seq<Pool>, demands: nat -> Option<Demand>, clock: nat -> int,
                         grace: int) {
    if rows == [] then es == []
    else
      var n := |rows| - 1;
      if demands(n).None? then Visits(es, rows[..n], demands, clock, grace)
      else
        && es != [] && Visits(es[..|es| - 1], rows[..n], demands, clock, grace)
        && (var e := es[|es| - 1];
            e.VisitPool? && e.v.p == rows[n] && e.v.demand == demands(n).value && e.v.now == clock(n) &&
                e.v.grace == grace)
  }

  lemma VisitsSnoc(es: seq<Event>, rows: seq<Pool>, i: nat, demands: nat -> Option<Demand>, clock: nat -> int,
                   grace: int, v: Visit)
    requires i < |rows| && Visits(es, rows[..i], demands, clock, grace)
    requires v.p == rows[i] && demands(i) == Some(v.demand) && v.now == clock(i) && v.grace == grace
    ensures Visits(es + [VisitPool(v)], rows[..i + 1], demands, clock, grace)
  {
    assert rows[..i + 1][..i] == rows[..i];
    assert (es + [VisitPool(v)])[..|es|] == es;
  }

  lemma VisitsSkip(es: seq<Event>, rows: seq<Pool>, i: nat, demands: nat -> Option<Demand>, clock: nat -> int,
                   grace: int)
    requires i < |rows| && Visits(es, rows[..i], demands, clock, grace) && demands(i).None?
    ensures Visits(es, rows[..i + 1], demands, clock, grace)
  {
    assert rows[..i + 1][..i] == rows[..i];
  }

  /** The phases of a cycle started in `s`; without the pools it ends after the queue. */
  ghost predicate CycleTrace(c: Cycle, o: Engine, s: Sys, recorder: bool, grace: int, t: Trace) {
    && t.audit == AuditEvents(c.live, c.reapReads, s.fleet)
    && t.quota == QuotaEvents(c.setting)
    && t.drain == [DrainStep(Loaded(c.drainRead))]
    && (c.db.None? ==> t.removals == t.hung == t.visits == [])
    && (c.db.Some? ==>
          && PoolRemovals(t.removals, ByName(c.db.value), Execute(o, s, t.audit + t.quota + t.drain).fleet)
          && HungEvents(t.hung, c.db.value, LoadedEach(c.hungReads), recorder, c.hungAt)
          && Visits(t.visits, c.db.value, c.demands, c.clock, grace))
  }

  lemma NamedLoaded(db: Option<seq<Pool>>)
    ensures Named(Loaded(db))
  {
    if db.Some? {
      ByNameWellNamed(db.value);
    }
  }

  lemma NamedEach(db: nat -> Option<seq<Pool>>)
    ensures NamedReads(LoadedEach(db))
  {
    forall n: nat ensures Named(LoadedEach(db)(n)) {
      NamedLoaded(db(n));
    }
  }

  lemma AuditEnabled(o: Engine, s: Sys, live: seq<RunnerStatus>)
    ensures Enabled(o, s, Audit(live))
  {
  }

  lemma RunSnoc(o: Engine, s: Sys, es: seq<Event>, e: Event)
    requires IsRun(o, s, es) && Enabled(o, Execute(o, s, es), e)
    ensures IsRun(o, s, es + [e]) && Execute(o, s, es + [e]) == Apply(o, Execute(o, s, es), e)
  {
    hide Apply, Enabled;
    assert (es + [e])[..|es|] == es;
  }
}
