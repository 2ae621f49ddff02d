/** Whole runs of the orchestrator: every interleaving of the steps that touch the tracked runners,
    the queue or the quota.  Each step is a body that holds the provisioning lock (or a single
    update, for the early webhook enqueue and the busy marks). */
module Runs {
  import opened Basics
  import opened Tracking
  import opened Auditor
  import opened Provisioning
  import opened Serving
  import opened Convergence
  import opened PoolLaws
  import opened Hung
  import opened Shutdown

  datatype Event =
    | Audit(live: seq<RunnerStatus>)
    | ReapOne(slot: Slot, db: Option<Pools>)
    | SetQuota(quota: int)
    | DrainStep(db: Option<Pools>)
    | RemovePool(pool: string, rs: seq<RunnerStatus>)
    | CheckHung(answers: nat -> Option<Pools>, recorder: bool, now: int, work: seq<Check>)
    | VisitPool(v: Visit)
    | QueuedJob(p: Pool, url: string)
    | EarlyEnqueue(pool: string, url: string)
    | MarkBusy(slot: Slot, busy: bool)
    | Forget(slot: Slot)
    | DismissSlots(slots: set<Slot>, order: seq<Slot>)

  // ---------------------------------------------------------------- steps not defined elsewhere

  ghost function WithoutPool(q: seq<Request>, pool: string): seq<Request> {
    if q == [] then []
    else
      var n := |q| - 1;
      WithoutPool(q[..n], pool) + (if q[n].poolName != pool then [q[n]] else [])
  }

  /** drainPool: terminate a removed pool's running runners and drop its requests. */
  ghost function DrainPool(s: Sys, pool: string, rs: seq<RunnerStatus>): Sys {
    TerminateAll(s, RunningOf(rs)).(queue := WithoutPool(s.queue, pool))
  }

  /** HandleWorkflowJob for a queued job matched to pool `p`, under the provisioning lock. */
  ghost function ServeJob(o: Engine, s: Sys, p: Pool, url: string): Attempt {
    if CapFull(s.fleet, p) then Attempt(true, s)
    else if QuotaFull(s) then Attempt(true, Enqueue(s, p.name, url))
    else SpawnRunner(o, s, p, true, url)
  }

  /** A queued job adds exactly one to running + queued of its pool, unless the pool is at its cap or the
      spawn fails; it spawns only below both limits; other pools are left alone. */
  lemma JobAddsOne(o: Engine, s: Sys, p: Pool, url: string, pool: string)
    requires Fresh(o, s)
    ensures var a := ServeJob(o, s, p, url);
            && Supply(a.sys, p.name) == Supply(s, p.name) + (if CapFull(s.fleet, p) || !a.ok then 0 else 1)
            && (Total(a.sys.fleet) > Total(s.fleet) <==>
                  !CapFull(s.fleet, p) && !QuotaFull(s) && o.spawn(s.calls).Spawned?)
            && (!a.ok <==> !CapFull(s.fleet, p) && !QuotaFull(s) && o.spawn(s.calls).SpawnFailed?)
            && (pool != p.name ==>
                  Count(a.sys.fleet, pool) == Count(s.fleet, pool) &&
                      ForPool(a.sys.queue, pool) == ForPool(s.queue, pool))
  {
    hide Total, Count, Queued, Fresh;
    SpawnFacts(o, s, p, true, url, pool);
    SpawnKeepsQueue(o, s, p, true, url);
    EnqueueFacts(s, p.name, url, pool);
  }

  /** Exactly what a queued job does: nothing at the cap; with the quota full its request joins the end of the
      queue, naming its target; otherwise one spawn attempt, and on success an on-demand runner at that
      target. */
  lemma JobServed(o: Engine, s: Sys, p: Pool, url: string)
    requires Fresh(o, s)
    ensures var a := ServeJob(o, s, p, url);
            var atCap := p.maxConcurrency > 0 && Count(s.fleet, p.name) >= p.maxConcurrency;
            var atQuota := s.quota > 0 && Total(s.fleet) >= s.quota;
            && (atCap ==> a == Attempt(true, s))
            && (!atCap && atQuota ==> a == Attempt(true, s.(queue := s.queue + [Request(p.name, url)])))
            && (!atCap && !atQuota && o.spawn(s.calls).SpawnFailed? ==> a == Attempt(false, s.(calls := s.calls + 1)))
            && (!atCap && !atQuota && o.spawn(s.calls).Spawned? ==>
                  var e := Spawn(Slot(p.name, o.spawn(s.calls).id), if url == "" then p.repositoryUrl else url);
                  a.ok && a.sys.log == s.log + [e] && Enrolled(o, a.sys.fleet, e, true) && a.sys.queue == s.queue)
  {
    hide Total, Count, Fresh, Enrolled;
    if o.spawn(s.calls).Spawned? {
      SpawnEnrols(o, s, p, true, url);
    } else {
      SpawnFails(o, s, p, true, url);
    }
    SpawnKeepsQueue(o, s, p, true, url);
    hide SpawnRunner;
  }

  lemma {:induction false} WithoutPoolFor(q: seq<Request>, pool: string, other: string)
    ensures ForPool(WithoutPool(q, pool), pool) == []
    ensures other != pool ==> ForPool(WithoutPool(q, pool), other) == ForPool(q, other)
  {
    if q != [] {
      var n := |q| - 1;
      var init := WithoutPool(q[..n], pool);
      WithoutPoolFor(q[..n], pool, other);
      ForPoolLast(q, other);
      ForPoolSnoc(init, q[n], pool);
      ForPoolSnoc(init, q[n], other);
      if q[n].poolName != pool {
        assert WithoutPool(q, pool) == init + [q[n]];
      } else {
        assert WithoutPool(q, pool) == init;
      }
      hide ForPool, WithoutPool;
    }
  }

  /** A drained pool has nothing running and nothing queued; every other pool keeps what it had. */
  lemma RemovedPoolIsEmpty(s: Sys, pool: string, rs: seq<RunnerStatus>, other: string)
    requires WellKeyed(s.fleet) && Listing(s.fleet, pool, rs)
    ensures var t := DrainPool(s, pool, rs);
            && Supply(t, pool) == 0 && t.log == s.log + Kills(RunningOf(rs))
            && (forall k :: k in s.fleet && !(k.pool == pool && s.fleet[k].state.Running?) ==>
                              k in t.fleet && t.fleet[k] == s.fleet[k])
            && (other != pool ==>
                  Count(t.fleet, other) == Count(s.fleet, other) && ForPool(t.queue, other) == ForPool(s.queue, other))
  {
    WithoutPoolFor(s.queue, pool, other);
    RunningOfMembers(rs);
    var gone := SlotsOf(RunningOf(rs));
    assert RunningIn(s.fleet - gone, pool) == {} by {
      forall k | k in RunningIn(s.fleet, pool) ensures k in gone {
        assert s.fleet[k] in RunningOf(rs);
      }
    }
    DropCounts(s.fleet, gone, other);
  }

  ghost function Apply(o: Engine, s: Sys, e: Event): Sys {
    match e
    case Audit(live) => s.(fleet := AuditFleet(s.fleet, live))
    case ReapOne(k, db) => Reap(o, db, s, k)
    case SetQuota(quota) => s.(quota := quota)
    case DrainStep(db) => if db.Some? then DrainQueue(o, db.value, s) else s
    case RemovePool(pool, rs) => DrainPool(s, pool, rs)
    case CheckHung(answers, recorder, now, work) => HungPass(Pass(o, answers, recorder, now), s, work)
    case VisitPool(v) => Converge(o, s, v).sys
    case QueuedJob(p, url) => ServeJob(o, s, p, url).sys
    case EarlyEnqueue(pool, url) => Enqueue(s, pool, url)
    case MarkBusy(k, busy) => if k in s.fleet then s.(fleet := s.fleet[k := s.fleet[k].(isBusy := busy)]) else s
    case Forget(k) => s.(fleet := s.fleet - {k}, log := s.log + [Terminate(k)])
    case DismissSlots(slots, order) => Dismiss(s, slots, order)
  }

  ghost predicate Named(db: Option<Pools>) {
    db.Some? ==> WellNamed(db.value)
  }

  /** A step is possible: snapshots are of the state it starts from, pools are keyed by their names,
      and only positive quotas are accepted. */
  ghost predicate Enabled(o: Engine, s: Sys, e: Event) {
    match e
    case ReapOne(_, db) => Named(db)
    case DrainStep(db) => Named(db)
    case SetQuota(quota) => quota > 0
    case RemovePool(pool, rs) => Listing(s.fleet, pool, rs)
    case CheckHung(answers, recorder, now, work) =>
      NamedReads(answers) && SnapshotsTaken(Pass(o, answers, recorder, now), s, work)
    case VisitPool(v) => Listing(s.fleet, v.p.name, v.rs)
    case _ => true
  }

  ghost function Execute(o: Engine, s: Sys, es: seq<Event>): Sys {
    if es == [] then s else Apply(o, Execute(o, s, es[..|es| - 1]), es[|es| - 1])
  }

  ghost predicate IsRun(o: Engine, s: Sys, es: seq<Event>) {
    es == [] ||
    (IsRun(o, s, es[..|es| - 1]) && Enabled(o, Execute(o, s, es[..|es| - 1]), es[|es| - 1]))
  }

  lemma {:induction false} RunAppend(o: Engine, s: Sys, a: seq<Event>, b: seq<Event>)
    requires IsRun(o, s, a) && IsRun(o, Execute(o, s, a), b)
    ensures IsRun(o, s, a + b) && Execute(o, s, a + b) == Execute(o, Execute(o, s, a), b)
  {
    hide Apply, Enabled;
    if b == [] {
      assert a + b == a;
    } else {
      var n := |b| - 1;
      RunAppend(o, s, a, b[..n]);
      assert (a + b)[..|a + b| - 1] == a + b[..n];
    }
  }

  // ---------------------------------------------------------------- limits, step by step

  ghost predicate Reads(e: Event, pool: string, cap: nat) {
    match e
    case ReapOne(_, db) => db.Some? ==> Caps(db.value, pool, cap)
    case DrainStep(db) => db.Some? ==> Caps(db.value, pool, cap)
    case CheckHung(answers, _, _, _) => CapsReads(answers, pool, cap)
    case VisitPool(v) => v.p.name == pool ==> 0 < v.p.maxConcurrency <= cap
    case QueuedJob(p, _) => p.name == pool ==> 0 < p.maxConcurrency <= cap
    case _ => true
  }

  ghost predicate CapsReads(answers: nat -> Option<Pools>, pool: string, cap: nat) {
    forall n :: answers(n).Some? ==> Caps(answers(n).value, pool, cap)
  }

  lemma ShrinkWithin(s: Sys, t: Sys, gone: set<Slot>, pool: string, cap: nat)
    requires t.fleet == s.fleet - gone && t.quota == s.quota
    ensures WithinQuota(s, t) && WithinCap(s, t, pool, cap)
  {
    hide Total, Count;
    DropCounts(s.fleet, gone, pool);
  }

  lemma QueueWithin(o: Engine, db: Option<Pools>, s: Sys, pool: string, cap: nat)
    requires Named(db) && s.quota > 0
    ensures var t := if db.Some? then DrainQueue(o, db.value, s) else s;
            WithinQuota(s, t) && ((db.Some? ==> Caps(db.value, pool, cap)) ==> WithinCap(s, t, pool, cap))
  {
    hide Total, Count, Caps, WellNamed;
    if db.Some? {
      DrainWithin(o, db.value, s, s.queue, pool, cap);
    }
  }

  lemma ReapWithin(o: Engine, db: Option<Pools>, s: Sys, k: Slot, pool: string, cap: nat)
    requires Named(db) && s.quota > 0
    ensures WithinQuota(s, Reap(o, db, s, k))
    ensures (db.Some? ==> Caps(db.value, pool, cap)) ==> WithinCap(s, Reap(o, db, s, k), pool, cap)
  {
    hide Total, Count, Caps, DrainQueue;
    var t := s.(fleet := s.fleet - {k}, log := s.log + [Terminate(k)]);
    ShrinkWithin(s, t, {k}, pool, cap);
    QueueWithin(o, db, t, pool, cap);
  }

  lemma {:induction false} HungLoopWithin(c: Pass, s: Sys, p: Pool, rs: seq<RunnerStatus>, pool: string, cap: nat)
    requires NamedReads(c.db) && s.quota > 0
    ensures WithinQuota(s, HungLoop(c, s, p, rs))
    ensures CapsReads(c.db, pool, cap) ==> WithinCap(s, HungLoop(c, s, p, rs), pool, cap)
  {
    hide Total, Count, Caps, DrainQueue, IsHung, WellNamed;
    if rs != [] {
      var n := |rs| - 1;
      HungLoopWithin(c, s, p, rs[..n], pool, cap);
      var t := HungLoop(c, s, p, rs[..n]);
      if IsHung(rs[n], p, c.now) {
        var k := SlotOf(rs[n]);
        var u := Killing(c, t, k);
        ShrinkWithin(t, u, {k}, pool, cap);
        QueueWithin(c.o, c.db(|u.log|), u, pool, cap);
      }
    }
  }

  lemma {:induction false} HungPassWithin(c: Pass, s: Sys, work: seq<Check>, pool: string, cap: nat)
    requires NamedReads(c.db) && s.quota > 0
    ensures WithinQuota(s, HungPass(c, s, work))
    ensures CapsReads(c.db, pool, cap) ==> WithinCap(s, HungPass(c, s, work), pool, cap)
  {
    hide Total, Count, CapsReads, HungLoop, NamedReads;
    if work != [] {
      var n := |work| - 1;
      HungPassWithin(c, s, work[..n], pool, cap);
      HungLoopWithin(c, HungPass(c, s, work[..n]), work[n].p, work[n].rs, pool, cap);
    }
  }

  /** The spawn loop respects the limits as long as the local tally is not below the true count. */
  lemma {:induction false} SpawnLoopWithin(o: Engine, p: Pool, onDemand: bool, s: Sys, active: nat, n: nat,
                                           pool: string, cap: nat)
    requires p.targets != [] && s.quota > 0 && Count(s.fleet, p.name) <= active
    ensures WithinQuota(s, SpawnLoop(o, p, onDemand, s, active, n).sys)
    ensures (p.name == pool ==> 0 < p.maxConcurrency <= cap) ==>
              WithinCap(s, SpawnLoop(o, p, onDemand, s, active, n).sys, pool, cap)
    decreases n
  {
    hide Total, Count, Queued, SpawnRunner;
    if n > 0 && !(p.maxConcurrency > 0 && active + Queued(s.queue, p.name) >= p.maxConcurrency) {
      var url := p.targets[active % |p.targets|];
      if QuotaFull(s) {
        SpawnLoopWithin(o, p, onDemand, Enqueue(s, p.name, url), active, n - 1, pool, cap);
      } else {
        SpawnFacts(o, s, p, onDemand, url, pool);
        SpawnFacts(o, s, p, onDemand, url, p.name);
        SpawnKeepsQueue(o, s, p, onDemand, url);
        SpawnLoopWithin(o, p, onDemand, SpawnRunner(o, s, p, onDemand, url).sys, active + 1, n - 1, pool, cap);
      }
    }
  }

  lemma ConvergeWithin(o: Engine, s: Sys, v: Visit, pool: string, cap: nat)
    requires Taken(s, v) && s.quota > 0
    ensures WithinQuota(s, Converge(o, s, v).sys)
    ensures (v.p.name == pool ==> 0 < v.p.maxConcurrency <= cap) ==> WithinCap(s, Converge(o, s, v).sys, pool, cap)
  {
    hide Target, Victims, Needed, ScaledDown, SpawnLoop, Count, Total, WellKeyed, Taken, Fresh;
    if v.p.targets != [] {
      ScaleDownFacts(o, s, v, pool);
      VictimsBounded(s, v);
      var t := ScaledDown(s, v);
      if Needed(s, v) > 0 {
        SpawnLoopWithin(o, v.p, OnDemand(v), t, |RunningOf(v.rs)| - |Victims(v)|, Needed(s, v), pool, cap);
      }
    }
  }

  lemma ServeWithin(o: Engine, s: Sys, p: Pool, url: string, pool: string, cap: nat)
    requires s.quota > 0
    ensures WithinQuota(s, ServeJob(o, s, p, url).sys)
    ensures (p.name == pool ==> 0 < p.maxConcurrency <= cap) ==> WithinCap(s, ServeJob(o, s, p, url).sys, pool, cap)
  {
    hide Total, Count;
    SpawnFacts(o, s, p, true, url, pool);
  }

  lemma BusyWithin(s: Sys, k: Slot, busy: bool, pool: string, cap: nat)
    requires k in s.fleet
    ensures var t := s.(fleet := s.fleet[k := s.fleet[k].(isBusy := busy)]);
            WithinQuota(s, t) && WithinCap(s, t, pool, cap)
  {
    var f, g := s.fleet, s.fleet[k := s.fleet[k].(isBusy := busy)];
    assert RunningSlots(g) == RunningSlots(f);
    assert RunningIn(g, pool) == RunningIn(f, pool);
  }

  /** No step but an audit or a quota change takes the running total above the larger of its start
      and the quota, or a pool above the larger of its start and its cap. */
  lemma StepWithin(o: Engine, s: Sys, e: Event, pool: string, cap: nat)
    requires WellKeyed(s.fleet) && s.quota > 0 && Enabled(o, s, e) && !e.Audit? && !e.SetQuota?
    ensures WithinQuota(s, Apply(o, s, e))
    ensures Reads(e, pool, cap) ==> WithinCap(s, Apply(o, s, e), pool, cap)
  {
    hide Total, Count, Reap, DrainQueue, HungPass, Converge, ServeJob, Caps, Listing, SnapshotsTaken, WellKeyed;
    match e
    case ReapOne(k, db) => ReapWithin(o, db, s, k, pool, cap);
    case DrainStep(db) => QueueWithin(o, db, s, pool, cap);
    case RemovePool(p, rs) => ShrinkWithin(s, Apply(o, s, e), SlotsOf(RunningOf(rs)), pool, cap);
    case CheckHung(answers, recorder, now, work) => HungPassWithin(Pass(o, answers, recorder, now), s, work, pool, cap);
    case VisitPool(v) => ConvergeWithin(o, s, v, pool, cap);
    case QueuedJob(p, url) => ServeWithin(o, s, p, url, pool, cap);
    case EarlyEnqueue(_, _) =>
    case MarkBusy(k, busy) => if k in s.fleet { BusyWithin(s, k, busy, pool, cap); }
    case Forget(k) => ShrinkWithin(s, Apply(o, s, e), {k}, pool, cap);
    case DismissSlots(slots, _) => ShrinkWithin(s, Apply(o, s, e), slots, pool, cap);
  }

  // ---------------------------------------------------------------- statuses stay under their own key

  lemma {:induction false} SpawnLoopKeys(o: Engine, p: Pool, onDemand: bool, s: Sys, active: nat, n: nat)
    requires p.targets != [] && WellKeyed(s.fleet)
    ensures WellKeyed(SpawnLoop(o, p, onDemand, s, active, n).sys.fleet)
    decreases n
  {
    hide Queued, QuotaFull;
    if n > 0 {
      var url := p.targets[active % |p.targets|];
      SpawnLoopKeys(o, p, onDemand, Enqueue(s, p.name, url), active, n - 1);
      SpawnLoopKeys(o, p, onDemand, SpawnRunner(o, s, p, onDemand, url).sys, active + 1, n - 1);
    }
  }

  lemma {:induction false} HungLoopKeys(c: Pass, s: Sys, p: Pool, rs: seq<RunnerStatus>)
    requires NamedReads(c.db) && WellKeyed(s.fleet)
    ensures WellKeyed(HungLoop(c, s, p, rs).fleet)
  {
    hide DrainQueue;
    if rs != [] {
      var n := |rs| - 1;
      HungLoopKeys(c, s, p, rs[..n]);
      var t := HungLoop(c, s, p, rs[..n]);
      var k := SlotOf(rs[n]);
      var u := Killing(c, t, k);
      if c.db(|u.log|).Some? {
        DrainKeepsKeys(c.o, c.db(|u.log|).value, u);
      }
    }
  }

  lemma {:induction false} HungPassKeys(c: Pass, s: Sys, work: seq<Check>)
    requires NamedReads(c.db) && WellKeyed(s.fleet)
    ensures WellKeyed(HungPass(c, s, work).fleet)
  {
    hide HungLoop, WellKeyed, NamedReads;
    if work != [] {
      var n := |work| - 1;
      HungPassKeys(c, s, work[..n]);
      HungLoopKeys(c, HungPass(c, s, work[..n]), work[n].p, work[n].rs);
    }
  }

  lemma StepKeys(o: Engine, s: Sys, e: Event)
    requires WellKeyed(s.fleet) && Enabled(o, s, e)
    ensures WellKeyed(Apply(o, s, e).fleet)
  {
    hide HungPass, DrainQueue, SpawnLoop, Listing, SnapshotsTaken, AuditFleet, Needed, Victims, SlotsOf;
    match e
    case Audit(live) => AuditTracksLive(s.fleet, live);
    case ReapOne(k, db) =>
      if db.Some? {
        DrainKeepsKeys(o, db.value, s.(fleet := s.fleet - {k}, log := s.log + [Terminate(k)]));
      }
    case DrainStep(db) => if db.Some? { DrainKeepsKeys(o, db.value, s); }
    case CheckHung(answers, recorder, now, work) => HungPassKeys(Pass(o, answers, recorder, now), s, work);
    case VisitPool(v) =>
      if v.p.targets != [] && Needed(s, v) > 0 && |RunningOf(v.rs)| >= |Victims(v)| {
        SpawnLoopKeys(o, v.p, OnDemand(v), ScaledDown(s, v), |RunningOf(v.rs)| - |Victims(v)|, Needed(s, v));
      }
    case _ =>
  }

  // ---------------------------------------------------------------- limits over a whole run

  /** Running containers an audit step starts to count: found on the host, or reported running
      again. */
  ghost function Adopts(s: Sys, e: Event): nat {
    if e.Audit? then |RunningSlots(AuditFleet(s.fleet, e.live)) - RunningSlots(s.fleet)| else 0
  }

  ghost function AdoptsIn(s: Sys, e: Event, pool: string): nat {
    if e.Audit? then |RunningIn(AuditFleet(s.fleet, e.live), pool) - RunningIn(s.fleet, pool)| else 0
  }

  ghost function Adoptions(o: Engine, s: Sys, es: seq<Event>): nat {
    if es == [] then 0
    else Adoptions(o, s, es[..|es| - 1]) + Adopts(Execute(o, s, es[..|es| - 1]), es[|es| - 1])
  }

  ghost function AdoptionsIn(o: Engine, s: Sys, es: seq<Event>, pool: string): nat {
    if es == [] then 0
    else AdoptionsIn(o, s, es[..|es| - 1], pool) + AdoptsIn(Execute(o, s, es[..|es| - 1]), es[|es| - 1], pool)
  }

  lemma AuditCounts(s: Sys, e: Event, pool: string)
    requires e.Audit?
    ensures Total(AuditFleet(s.fleet, e.live)) <= Total(s.fleet) + Adopts(s, e)
    ensures Count(AuditFleet(s.fleet, e.live), pool) <= Count(s.fleet, pool) + AdoptsIn(s, e, pool)
  {
    var g := AuditFleet(s.fleet, e.live);
    SplitSize(RunningSlots(g), RunningSlots(s.fleet));
    SplitSize(RunningIn(g, pool), RunningIn(s.fleet, pool));
  }

  lemma SplitSize(a: set<Slot>, b: set<Slot>)
    ensures |a| <= |b| + |a - b|
  {
    assert a == (a - b) + (a * b);
    SubsetSize(a * b, b);
  }

  lemma {:induction false} RunKeys(o: Engine, s: Sys, es: seq<Event>, quota: int)
    requires WellKeyed(s.fleet) && 0 < s.quota <= quota && IsRun(o, s, es)
    requires forall e :: e in es && e.SetQuota? ==> e.quota <= quota
    ensures WellKeyed(Execute(o, s, es).fleet) && 0 < Execute(o, s, es).quota <= quota
  {
    hide WellKeyed, Apply, Enabled;
    if es != [] {
      var n := |es| - 1;
      assert es == es[..n] + [es[n]];
      RunKeys(o, s, es[..n], quota);
      var t := Execute(o, s, es[..n]);
      StepKeys(o, t, es[n]);
      StepQuota(o, t, es[n]);
    }
  }

  lemma StepQuota(o: Engine, s: Sys, e: Event)
    requires WellKeyed(s.fleet) && s.quota > 0 && Enabled(o, s, e)
    ensures Apply(o, s, e).quota > 0
    ensures Apply(o, s, e).quota == if e.SetQuota? then e.quota else s.quota
  {
    hide AuditFleet, Reap, DrainQueue, HungPass, Converge, ServeJob, DrainPool, Dismiss;
    if !e.Audit? && !e.SetQuota? {
      StepWithin(o, s, e, "", 0);
    }
  }

  lemma StepTotal(o: Engine, s: Sys, e: Event)
    requires WellKeyed(s.fleet) && s.quota > 0 && Enabled(o, s, e)
    ensures Total(Apply(o, s, e).fleet) <= Max(Total(s.fleet), s.quota) + Adopts(s, e)
  {
    hide Total, Adopts, Enabled, WellKeyed;
    if e.Audit? {
      AuditCounts(s, e, "");
    } else if !e.SetQuota? {
      hide Apply;
      StepWithin(o, s, e, "", 0);
    }
  }

  lemma StepCount(o: Engine, s: Sys, e: Event, pool: string, cap: nat)
    requires WellKeyed(s.fleet) && s.quota > 0 && Enabled(o, s, e) && Reads(e, pool, cap)
    ensures Count(Apply(o, s, e).fleet, pool) <= Max(Count(s.fleet, pool), cap) + AdoptsIn(s, e, pool)
  {
    hide Count, AdoptsIn, Enabled, WellKeyed, Reads;
    if e.Audit? {
      AuditCounts(s, e, pool);
    } else if !e.SetQuota? {
      hide Apply;
      StepWithin(o, s, e, pool, cap);
    }
  }

  /** Quota safety for every run, with no assumption about audits or about the engine's ids: if no
      quota in effect exceeds `quota`, the running total never exceeds the larger of its start and
      `quota`, plus the running containers that audits adopted.  Runs are closed under prefixes, so
      this bounds every state on the way. */
  lemma {:induction false} QuotaHolds(o: Engine, s: Sys, es: seq<Event>, quota: int)
    requires WellKeyed(s.fleet) && IsRun(o, s, es) && 0 < s.quota <= quota
    requires forall e :: e in es && e.SetQuota? ==> e.quota <= quota
    ensures Total(Execute(o, s, es).fleet) <= Max(Total(s.fleet), quota) + Adoptions(o, s, es)
  {
    hide WellKeyed, Total, Enabled, Adopts, Apply;
    if es != [] {
      var n := |es| - 1;
      assert es == es[..n] + [es[n]];
      QuotaHolds(o, s, es[..n], quota);
      RunKeys(o, s, es[..n], quota);
      StepTotal(o, Execute(o, s, es[..n]), es[n]);
    }
  }

  ghost function Largest(s: Sys, es: seq<Event>): int {
    if es == [] then s.quota
    else
      var n := |es| - 1;
      Max(Largest(s, es[..n]), if es[n].SetQuota? then es[n].quota else s.quota)
  }

  lemma {:induction false} LargestBounds(s: Sys, es: seq<Event>)
    ensures s.quota <= Largest(s, es)
    ensures forall e :: e in es && e.SetQuota? ==> e.quota <= Largest(s, es)
  {
    if es != [] {
      LargestBounds(s, es[..|es| - 1]);
      assert es == es[..|es| - 1] + [es[|es| - 1]];
    }
  }

  /** Cap safety for every run: if the pool was only ever read with a cap of at most `cap`, its running
      count never exceeds the larger of its start and `cap`, plus what audits adopted into it. */
  lemma {:induction false} CapHolds(o: Engine, s: Sys, es: seq<Event>, pool: string, cap: nat)
    requires WellKeyed(s.fleet) && IsRun(o, s, es) && s.quota > 0
    requires forall e :: e in es ==> Reads(e, pool, cap)
    ensures Count(Execute(o, s, es).fleet, pool) <= Max(Count(s.fleet, pool), cap) + AdoptionsIn(o, s, es, pool)
  {
    hide WellKeyed, Count, Enabled, AdoptsIn, Reads, Apply;
    if es != [] {
      var n := |es| - 1;
      assert es == es[..n] + [es[n]];
      CapHolds(o, s, es[..n], pool, cap);
      LargestBounds(s, es[..n]);
      RunKeys(o, s, es[..n], Largest(s, es[..n]));
      StepCount(o, Execute(o, s, es[..n]), es[n], pool, cap);
    }
  }

  /** In particular: from a state within limits, and as long as audits adopt no running container, the
      limits hold in every state. */
  lemma LimitsHold(o: Engine, s: Sys, es: seq<Event>, quota: int, pool: string, cap: nat)
    requires WellKeyed(s.fleet) && IsRun(o, s, es) && 0 < s.quota <= quota
    requires Total(s.fleet) <= quota && Count(s.fleet, pool) <= cap
    requires forall e :: e in es ==> Reads(e, pool, cap) && (e.SetQuota? ==> e.quota <= quota)
    requires Adoptions(o, s, es) == 0 && AdoptionsIn(o, s, es, pool) == 0
    ensures Total(Execute(o, s, es).fleet) <= quota && Count(Execute(o, s, es).fleet, pool) <= cap
  {
    hide Total, Count, Adoptions, AdoptionsIn;
    QuotaHolds(o, s, es, quota);
    CapHolds(o, s, es, pool, cap);
  }
}
