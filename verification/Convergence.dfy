/** internal/orchestrator/controller.go: reconcilePoolWithProvider, which moves one pool towards its
    target. */
module Convergence {
  import opened Basics
  import opened Tracking
  import opened Provisioning

  /** How the pool's provider scales.  Polling carries the answer for each target, None for an
      error. */
  datatype Demand = Webhook | Polling(answers: seq<Option<nat>>)

  /** What one reconcile of pool `p` sees: the pool's tracked runners in the order met, the
      provider's demand, the clock and the scale-to-zero grace period. */
  datatype Visit = Visit(p: Pool, rs: seq<RunnerStatus>, demand: Demand, now: int, grace: int)

  ghost function PollTotal(answers: seq<Option<nat>>): nat {
    if answers == [] then 0
    else
      var n := |answers| - 1;
      PollTotal(answers[..n]) + (if answers[n].Some? then answers[n].value else 0)
  }

  function Capped(p: Pool, target: int): int {
    if p.maxConcurrency > 0 && target > p.maxConcurrency then p.maxConcurrency else target
  }

  /** effectiveTarget: minimum idle, raised by a polled backlog, then capped. */
  ghost function TargetOf(p: Pool, demand: Demand, active: nat, idle: nat): int {
    var wanted :=
      if demand.Polling? && PollTotal(demand.answers) > idle
      then Max(p.minIdle, active + PollTotal(demand.answers) - idle)
      else p.minIdle;
    Capped(p, wanted)
  }

  ghost function Target(v: Visit): int {
    TargetOf(v.p, v.demand, |RunningOf(v.rs)|, |IdleOf(v.rs)|)
  }

  function GraceFor(p: Pool, grace: int): int {
    if p.maxLifetime > 0 && p.maxLifetime < grace then p.maxLifetime else grace
  }

  predicate Stale(r: RunnerStatus, now: int, grace: int) {
    !r.onDemand || (r.spawnedAt != 0 && now - r.spawnedAt >= grace)
  }

  function StaleOf(rs: seq<RunnerStatus>, now: int, grace: int): seq<RunnerStatus> {
    if rs == [] then []
    else
      var n := |rs| - 1;
      StaleOf(rs[..n], now, grace) + (if Stale(rs[n], now, grace) then [rs[n]] else [])
  }

  /** How many idle runners the concurrency cap forces out. */
  function OverCap(p: Pool, active: nat, idle: nat): (k: nat)
    ensures k <= idle
  {
    if p.maxConcurrency > 0 && active > p.maxConcurrency then Min(active - p.maxConcurrency, idle) else 0
  }

  /** Those of the remaining idle runners that the scaling mode drains. */
  function Surplus(p: Pool, idle: seq<RunnerStatus>, target: int, now: int, grace: int): seq<RunnerStatus> {
    if p.minIdle == 0 then StaleOf(idle, now, GraceFor(p, grace))
    else if |idle| > target then idle[..Min(|idle| - target, |idle|)]
    else []
  }

  /** The idle runners left once the cap is enforced. */
  ghost function KeptIdle(v: Visit): seq<RunnerStatus> {
    IdleOf(v.rs)[OverCap(v.p, |RunningOf(v.rs)|, |IdleOf(v.rs)|)..]
  }

  /** The runners terminated by one reconcile, in order. */
  ghost function Victims(v: Visit): seq<RunnerStatus> {
    IdleOf(v.rs)[..OverCap(v.p, |RunningOf(v.rs)|, |IdleOf(v.rs)|)] +
    Surplus(v.p, KeptIdle(v), Target(v), v.now, v.grace)
  }

  ghost function Kills(rs: seq<RunnerStatus>): seq<Effect> {
    seq(|rs|, i requires 0 <= i < |rs| => Terminate(SlotOf(rs[i])))
  }

  ghost function TerminateAll(s: Sys, rs: seq<RunnerStatus>): Sys {
    s.(fleet := s.fleet - SlotsOf(rs), log := s.log + Kills(rs))
  }

  /** The spawn loop, with `active` the controller's own running tally. */
  ghost function SpawnLoop(o: Engine, p: Pool, onDemand: bool, s: Sys, active: nat, n: nat): Attempt
    requires p.targets != []
    decreases n
  {
    if n == 0 then Attempt(true, s)
    else if p.maxConcurrency > 0 && active + Queued(s.queue, p.name) >= p.maxConcurrency then Attempt(true, s)
    else
      var url := p.targets[active % |p.targets|];
      if QuotaFull(s) then
        SpawnLoop(o, p, onDemand, Enqueue(s, p.name, url), active, n - 1)
      else
        var a := SpawnRunner(o, s, p, onDemand, url);
        if !a.ok then a else SpawnLoop(o, p, onDemand, a.sys, active + 1, n - 1)
  }

  ghost function Enqueue(s: Sys, pool: string, url: string): Sys {
    s.(queue := s.queue + [Request(pool, url)])
  }

  predicate OnDemand(v: Visit) {
    v.p.minIdle == 0 || v.demand.Polling?
  }

  ghost function ScaledDown(s: Sys, v: Visit): Sys {
    TerminateAll(s, Victims(v))
  }

  /** How far running + queued is below target once scaled down. */
  ghost function Needed(s: Sys, v: Visit): int {
    Target(v) - (|RunningOf(v.rs)| - |Victims(v)| + Queued(s.queue, v.p.name))
  }

  /** One reconcile of a pool. */
  ghost function Converge(o: Engine, s: Sys, v: Visit): Attempt {
    if v.p.targets == [] then Attempt(true, s)
    else if Needed(s, v) <= 0 || |RunningOf(v.rs)| < |Victims(v)| then Attempt(true, ScaledDown(s, v))
    else SpawnLoop(o, v.p, OnDemand(v), ScaledDown(s, v), |RunningOf(v.rs)| - |Victims(v)|, Needed(s, v))
  }

  /** `v` was taken in state `s`. */
  ghost predicate Taken(s: Sys, v: Visit) {
    WellKeyed(s.fleet) && Listing(s.fleet, v.p.name, v.rs)
  }

  // ---------------------------------------------------------------- scaling down

  lemma {:induction false} StaleOfMembers(rs: seq<RunnerStatus>, now: int, grace: int)
    ensures forall r :: r in StaleOf(rs, now, grace) <==> r in rs && Stale(r, now, grace)
    ensures DistinctSlots(rs) ==> DistinctSlots(StaleOf(rs, now, grace))
    ensures |StaleOf(rs, now, grace)| <= |rs|
  {
    if rs != [] {
      var n := |rs| - 1;
      StaleOfMembers(rs[..n], now, grace);
      DistinctSnoc(rs, StaleOf(rs[..n], now, grace));
    }
  }

  lemma SurplusMembers(p: Pool, idle: seq<RunnerStatus>, target: int, now: int, grace: int)
    requires DistinctSlots(idle)
    ensures var out := Surplus(p, idle, target, now, grace);
            (forall r :: r in out ==> r in idle) && DistinctSlots(out) && |out| <= |idle|
  {
    StaleOfMembers(idle, now, GraceFor(p, grace));
  }

  /** Scale-down only terminates runners that are running and not tracked busy, each once. */
  lemma VictimsAreIdle(v: Visit)
    requires DistinctSlots(v.rs)
    ensures forall r :: r in Victims(v) ==> r in v.rs && r.state.Running? && !r.isBusy
    ensures DistinctSlots(Victims(v))
    ensures |Victims(v)| <= |IdleOf(v.rs)| <= |RunningOf(v.rs)|
  {
    hide Surplus, Target;
    var idle := IdleOf(v.rs);
    IdleOfMembers(v.rs);
    var k := OverCap(v.p, |RunningOf(v.rs)|, |idle|);
    var kept := idle[k..];
    var more := Surplus(v.p, kept, Target(v), v.now, v.grace);
    SurplusMembers(v.p, kept, Target(v), v.now, v.grace);
    assert Victims(v) == idle[..k] + more;
    DistinctHalves(idle, k, more);
  }

  lemma DistinctHalves(idle: seq<RunnerStatus>, k: nat, more: seq<RunnerStatus>)
    requires DistinctSlots(idle) && k <= |idle| && DistinctSlots(more)
    requires forall r :: r in more ==> r in idle[k..]
    ensures DistinctSlots(idle[..k] + more)
    ensures forall r :: r in idle[..k] + more ==> r in idle
  {
    var gone := idle[..k] + more;
    forall i, j | 0 <= i < j < |gone| ensures SlotOf(gone[i]) != SlotOf(gone[j]) {
      if i < k <= j {
        var r := more[j - k];
        assert r in more;
        assert r in idle[k..];
      }
    }
  }

  lemma ScaleDownFacts(o: Engine, s: Sys, v: Visit, pool: string)
    requires Taken(s, v)
    ensures var t := ScaledDown(s, v);
            && WellKeyed(t.fleet) && (Fresh(o, s) ==> Fresh(o, t))
            && t.queue == s.queue && t.quota == s.quota && t.calls == s.calls && t.log == s.log + Kills(Victims(v))
            && Count(t.fleet, v.p.name) == |RunningOf(v.rs)| - |Victims(v)| == Count(s.fleet, v.p.name) - |Victims(v)|
            && Total(t.fleet) == Total(s.fleet) - |Victims(v)|
            && (pool != v.p.name ==> Count(t.fleet, pool) == Count(s.fleet, pool))
  {
    hide Total, Count, Victims;
    var gone := Victims(v);
    VictimsAreIdle(v);
    ListingCount(s.fleet, v.p.name, v.rs);
    SlotsOfSize(gone);
    assert SlotsOf(gone) <= RunningIn(s.fleet, v.p.name);
    assert SlotsOf(gone) <= RunningSlots(s.fleet);
    DropCounts(s.fleet, SlotsOf(gone), v.p.name);
    DropCounts(s.fleet, SlotsOf(gone), pool);
  }

  lemma TargetWithinCap(v: Visit)
    ensures v.p.maxConcurrency > 0 ==> Target(v) <= v.p.maxConcurrency
    ensures v.demand.Webhook? ==> Target(v) == Capped(v.p, v.p.minIdle)
  {
  }

  /** If anything was terminated then the pool is not below target, unless it scales to zero and
      polls. */
  lemma DrainedMeansEnough(v: Visit)
    requires DistinctSlots(v.rs)
    requires v.demand.Webhook? || v.p.minIdle != 0
    requires Victims(v) != []
    ensures |RunningOf(v.rs)| - |Victims(v)| >= Target(v)
  {
    hide RunningOf, IdleOf, Target;
    TargetWithinCap(v);
    IdleOfMembers(v.rs);
    var k := OverCap(v.p, |RunningOf(v.rs)|, |IdleOf(v.rs)|);
    StaleOfMembers(KeptIdle(v), v.now, GraceFor(v.p, v.grace));
    assert |Victims(v)| == k + |Surplus(v.p, KeptIdle(v), Target(v), v.now, v.grace)|;
  }

  // ---------------------------------------------------------------- the spawn loop

  /** The spawn loop without its concurrency check. */
  ghost function SpawnLoopUnchecked(o: Engine, p: Pool, onDemand: bool, s: Sys, active: nat, n: nat): Attempt
    requires p.targets != []
    decreases n
  {
    if n == 0 then Attempt(true, s)
    else
      var url := p.targets[active % |p.targets|];
      if QuotaFull(s) then
        SpawnLoopUnchecked(o, p, onDemand, Enqueue(s, p.name, url), active, n - 1)
      else
        var a := SpawnRunner(o, s, p, onDemand, url);
        if !a.ok then a else SpawnLoopUnchecked(o, p, onDemand, a.sys, active + 1, n - 1)
  }

  lemma EnqueueFacts(s: Sys, pool: string, url: string, other: string)
    ensures Queued(Enqueue(s, pool, url).queue, pool) == Queued(s.queue, pool) + 1
    ensures other != pool ==> ForPool(Enqueue(s, pool, url).queue, other) == ForPool(s.queue, other)
  {
    ForPoolSnoc(s.queue, Request(pool, url), pool);
    ForPoolSnoc(s.queue, Request(pool, url), other);
  }

  lemma SpawnKeepsQueue(o: Engine, s: Sys, p: Pool, onDemand: bool, url: string)
    ensures var a := SpawnRunner(o, s, p, onDemand, url);
            a.sys.queue == s.queue && a.sys.quota == s.quota && a.sys.calls == s.calls + 1
  {
  }

  /** The concurrency check inside the loop never fires when the shortfall stays within the cap. */
  lemma {:induction false} LoopCheckIsDead(o: Engine, p: Pool, onDemand: bool, s: Sys, active: nat, n: nat)
    requires p.targets != []
    requires p.maxConcurrency > 0 ==> active + Queued(s.queue, p.name) + n <= p.maxConcurrency
    ensures SpawnLoop(o, p, onDemand, s, active, n) == SpawnLoopUnchecked(o, p, onDemand, s, active, n)
    decreases n
  {
    hide Queued, QuotaFull, SpawnRunner, Enqueue;
    if n > 0 {
      var url := p.targets[active % |p.targets|];
      EnqueueFacts(s, p.name, url, p.name);
      SpawnKeepsQueue(o, s, p, onDemand, url);
      LoopCheckIsDead(o, p, onDemand, Enqueue(s, p.name, url), active, n - 1);
      LoopCheckIsDead(o, p, onDemand, SpawnRunner(o, s, p, onDemand, url).sys, active + 1, n - 1);
    }
  }

  /** With fresh ids each iteration adds exactly one to running + queued of the pool. */
  lemma {:induction false} SpawnLoopFills(o: Engine, p: Pool, onDemand: bool, s: Sys, active: nat, n: nat)
    requires p.targets != [] && Fresh(o, s) && active == Count(s.fleet, p.name)
    requires p.maxConcurrency > 0 ==> active + Queued(s.queue, p.name) + n <= p.maxConcurrency
    ensures var a := SpawnLoop(o, p, onDemand, s, active, n);
            && Fresh(o, a.sys) && (WellKeyed(s.fleet) ==> WellKeyed(a.sys.fleet))
            && Count(a.sys.fleet, p.name) >= active
            && Count(a.sys.fleet, p.name) + Queued(a.sys.queue, p.name) <= active + Queued(s.queue, p.name) + n
            && (a.ok ==>
                  Count(a.sys.fleet, p.name) + Queued(a.sys.queue, p.name) == active + Queued(s.queue, p.name) + n)
    decreases n
  {
    hide Queued, Count, Total, WellKeyed, QuotaFull, SpawnRunner;
    if n > 0 {
      var url := p.targets[active % |p.targets|];
      if QuotaFull(s) {
        EnqueueFacts(s, p.name, url, p.name);
        SpawnLoopFills(o, p, onDemand, Enqueue(s, p.name, url), active, n - 1);
      } else {
        SpawnFacts(o, s, p, onDemand, url, p.name);
        SpawnKeepsQueue(o, s, p, onDemand, url);
        var a := SpawnRunner(o, s, p, onDemand, url);
        if a.ok {
          SpawnLoopFills(o, p, onDemand, a.sys, active + 1, n - 1);
        }
      }
    }
  }

  /** ... and touches no other pool. */
  lemma {:induction false} SpawnLoopIsLocal(o: Engine, p: Pool, onDemand: bool, s: Sys, active: nat, n: nat,
                                            pool: string)
    requires p.targets != [] && pool != p.name
    ensures var a := SpawnLoop(o, p, onDemand, s, active, n);
            Count(a.sys.fleet, pool) == Count(s.fleet, pool) && ForPool(a.sys.queue, pool) == ForPool(s.queue, pool)
    decreases n
  {
    hide Count, Total, Queued, QuotaFull, SpawnRunner;
    if n > 0 {
      var url := p.targets[active % |p.targets|];
      EnqueueFacts(s, p.name, url, pool);
      SpawnFacts(o, s, p, onDemand, url, pool);
      SpawnKeepsQueue(o, s, p, onDemand, url);
      SpawnLoopIsLocal(o, p, onDemand, Enqueue(s, p.name, url), active, n - 1, pool);
      SpawnLoopIsLocal(o, p, onDemand, SpawnRunner(o, s, p, onDemand, url).sys, active + 1, n - 1, pool);
    }
  }

  // ---------------------------------------------------------------- convergence

  /** Running plus queued: what the pool has or will have. */
  ghost function Supply(s: Sys, pool: string): nat {
    Count(s.fleet, pool) + Queued(s.queue, pool)
  }

  /** A successful reconcile leaves running + queued at exactly max(T, r + q), where T is the capped
      target and r, q are the counts after scale-down; a failed one stays at or below that. */
  lemma ConvergeReachesTarget(o: Engine, s: Sys, v: Visit)
    requires Taken(s, v) && Fresh(o, s) && v.p.targets != []
    ensures var c := Converge(o, s, v);
            var goal := Max(Target(v), Supply(ScaledDown(s, v), v.p.name));
            && (c.ok ==> Supply(c.sys, v.p.name) == goal)
            && Supply(c.sys, v.p.name) <= goal
            && Fresh(o, c.sys) && WellKeyed(c.sys.fleet)
  {
    hide Target, Victims, ScaledDown, SpawnLoop, Count, Total, Queued, Fresh, Taken, WellKeyed;
    VictimsBounded(s, v);
    ScaleDownFacts(o, s, v, v.p.name);
    TargetWithinCap(v);
    if Needed(s, v) > 0 {
      SpawnLoopFills(o, v.p, OnDemand(v), ScaledDown(s, v), |RunningOf(v.rs)| - |Victims(v)|, Needed(s, v));
    }
  }

  lemma VictimsBounded(s: Sys, v: Visit)
    requires Taken(s, v)
    ensures |Victims(v)| <= |IdleOf(v.rs)| <= |RunningOf(v.rs)|
  {
    VictimsAreIdle(v);
  }

  /** Inside a reconcile the loop's concurrency check is unreachable: dropping it changes nothing. */
  lemma ConvergeNeedsNoLoopCheck(o: Engine, s: Sys, v: Visit)
    requires Taken(s, v) && v.p.targets != []
    ensures Converge(o, s, v) ==
            if Needed(s, v) <= 0 then Attempt(true, ScaledDown(s, v))
            else SpawnLoopUnchecked(o, v.p, OnDemand(v), ScaledDown(s, v), Count(ScaledDown(s, v).fleet, v.p.name),
                                    Needed(s, v))
  {
    hide Target, Victims, ScaledDown, SpawnLoop, SpawnLoopUnchecked, Count, Total, Queued, Fresh, Taken, WellKeyed;
    VictimsBounded(s, v);
    ScaleDownFacts(o, s, v, v.p.name);
    TargetWithinCap(v);
    if Needed(s, v) > 0 {
      LoopCheckIsDead(o, v.p, OnDemand(v), ScaledDown(s, v), |RunningOf(v.rs)| - |Victims(v)|, Needed(s, v));
    }
  }

  /** Reconciling one pool leaves every other pool's runners and queued requests alone. */
  lemma ConvergeIsLocal(o: Engine, s: Sys, v: Visit, pool: string)
    requires Taken(s, v) && pool != v.p.name
    ensures var c := Converge(o, s, v);
            Count(c.sys.fleet, pool) == Count(s.fleet, pool) && ForPool(c.sys.queue, pool) == ForPool(s.queue, pool)
  {
    hide Needed, Victims, ScaledDown, SpawnLoop, Count, Total, Queued, Fresh, Taken, WellKeyed;
    VictimsBounded(s, v);
    ScaleDownFacts(o, s, v, pool);
    if v.p.targets != [] && Needed(s, v) > 0 {
      SpawnLoopIsLocal(o, v.p, OnDemand(v), ScaledDown(s, v), |RunningOf(v.rs)| - |Victims(v)|, Needed(s, v), pool);
    }
  }

  /** In polling mode a backlog larger than the idle runners is covered: running + queued reaches
      at least busy + polled jobs, up to the cap, even if stale runners were drained meanwhile. */
  lemma PollingCoversBacklog(o: Engine, s: Sys, v: Visit)
    requires Taken(s, v) && Fresh(o, s) && v.p.targets != []
    requires v.demand.Polling? && PollTotal(v.demand.answers) > |IdleOf(v.rs)|
    ensures var c := Converge(o, s, v);
            var busy := |RunningOf(v.rs)| - |IdleOf(v.rs)|;
            var wanted := busy + PollTotal(v.demand.answers);
            c.ok ==>
              Supply(c.sys, v.p.name) >= if v.p.maxConcurrency > 0 then Min(wanted, v.p.maxConcurrency) else wanted
  {
    hide Converge, Supply, Taken, Fresh, ScaledDown, PollTotal;
    ConvergeReachesTarget(o, s, v);
  }

  // ---------------------------------------------------------------- what a reconcile does to the log

  /** `b` is `a` followed by effects that are all spawns. */
  ghost predicate SpawnsOnly(a: seq<Effect>, b: seq<Effect>) {
    |a| <= |b| && b[..|a|] == a && forall i :: |a| <= i < |b| ==> b[i].Spawn?
  }

  lemma {:induction false} SpawnLoopLog(o: Engine, p: Pool, onDemand: bool, s: Sys, active: nat, n: nat)
    requires p.targets != []
    ensures SpawnsOnly(s.log, SpawnLoop(o, p, onDemand, s, active, n).sys.log)
    decreases n
  {
    hide QuotaFull, Queued;
    if n > 0 {
      var url := p.targets[active % |p.targets|];
      if QuotaFull(s) {
        SpawnLoopLog(o, p, onDemand, Enqueue(s, p.name, url), active, n - 1);
      } else {
        var a := SpawnRunner(o, s, p, onDemand, url);
        SpawnLoopLog(o, p, onDemand, a.sys, active + 1, n - 1);
        SpawnsOnlyTrans(s.log, a.sys.log, SpawnLoop(o, p, onDemand, a.sys, active + 1, n - 1).sys.log);
      }
    }
  }

  lemma SpawnsOnlyTrans(a: seq<Effect>, b: seq<Effect>, c: seq<Effect>)
    requires SpawnsOnly(a, b) && SpawnsOnly(b, c)
    ensures SpawnsOnly(a, c)
  {
    assert c[..|a|] == c[..|b|][..|a|];
    forall i | |a| <= i < |b| ensures c[i].Spawn? {
      assert c[i] == c[..|b|][i];
    }
  }

  /** With a webhook provider, or a pool that does not scale to zero, one reconcile never both
      terminates and spawns. */
  lemma NeverDrainsAndSpawns(o: Engine, s: Sys, v: Visit)
    requires Taken(s, v)
    requires v.demand.Webhook? || v.p.minIdle != 0
    ensures var log := Converge(o, s, v).sys.log;
            || SpawnsOnly(s.log, log)
            || exists gone: seq<RunnerStatus> :: log == s.log + Kills(gone)
  {
    hide Target, Victims, ScaledDown, SpawnLoop, Count, Total, Queued, WellKeyed, Kills;
    if v.p.targets != [] {
      VictimsBounded(s, v);
      ScaleDownFacts(o, s, v, v.p.name);
      if Victims(v) != [] {
        DrainedMeansEnough(v);
        assert Converge(o, s, v).sys.log == s.log + Kills(Victims(v));
      } else {
        NoKills(s.log);
        if Needed(s, v) > 0 {
          SpawnLoopLog(o, v.p, OnDemand(v), ScaledDown(s, v), |RunningOf(v.rs)| - |Victims(v)|, Needed(s, v));
        }
      }
    }
  }

  lemma NoKills(log: seq<Effect>)
    ensures log + Kills([]) == log
  {
  }
}
