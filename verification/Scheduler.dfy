/** internal/cron/scheduler.go: the scheduler and its entries as objects.  Each method is one critical
    section and is proved to change the mutex-protected state exactly as `CronProtocol` says. */
module Scheduler {
  import opened Basics
  import opened CronProtocol

  class JobEntry {
    const poolId: int
    const schedule: Schedule
    var lastRun: int
    var nextRun: int
    var running: bool
    var pendingImmediate: bool
    ghost var fires: seq<int>

    constructor (poolId: int, schedule: Schedule, lastRun: int, nextRun: int, pendingImmediate: bool)
      ensures Val() == Entry(poolId, schedule, lastRun, nextRun, false, pendingImmediate, [])
    {
      this.poolId, this.schedule, this.lastRun, this.nextRun := poolId, schedule, lastRun, nextRun;
      this.running, this.pendingImmediate, this.fires := false, pendingImmediate, [];
    }

    ghost function Val(): Entry
      reads this
    {
      Entry(poolId, schedule, lastRun, nextRun, running, pendingImmediate, fires)
    }
  }

  datatype Outcome = Registered | NilTask | InvalidSchedule | SchedulerStopped

  /** A configuration as submitted: the task may be missing, the expression may not parse. */
  datatype JobRequest = JobRequest(hasTask: bool, schedule: Option<Schedule>, poolId: int, lastRun: int, policy: Policy)

  predicate Acceptable(cfg: JobRequest) {
    cfg.hasTask && cfg.schedule.Some?
  }

  /** An enabled renovate row; `wanted` if it is enabled and its expression is not blank. */
  datatype RenovateRow = RenovateRow(poolId: int, wanted: bool, schedule: Option<Schedule>, lastRun: int)

  class Scheduler {
    var jobs: map<int, JobEntry>
    var token: bool
    var running: bool
    var stopped: bool
    var wg: nat
    /** The protected state as the protocol sees it; its entries are all those ever registered. */
    ghost var core: Core<JobEntry>

    ghost predicate Mirrors()
      reads this, core.entries.Keys
    {
      forall e :: e in core.entries ==> e.Val() == core.entries[e]
    }

    ghost predicate Valid()
      reads this, core.entries.Keys
    {
      Mirrors() && Flags()
    }

    ghost predicate Flags()
      reads this
    {
      && core.jobs == jobs && core.token == token && core.running == running && core.stopped == stopped && core.wg == wg
      && forall id :: id in jobs ==> jobs[id] in core.entries && core.entries[jobs[id]].poolId == id
    }

    constructor ()
      ensures Valid() && core == Core(map[], map[], false, false, false, multiset{}, 0, 0)
    {
      jobs, token, running, stopped, wg := map[], false, false, false, 0;
      core := Core(map[], map[], false, false, false, multiset{}, 0, 0);
    }

    method SignalWakeup()
      requires Valid()
      modifies this`token, this`core
      ensures Valid() && core == Signal(old(core))
    {
      token := true;
      core := Signal(core);
    }

    method DispatchJob(e: JobEntry, at: int)
      requires Valid() && e in core.entries
      modifies this`wg, this`core, e
      ensures Valid() && core == Dispatch(old(core), e, at) && e.nextRun == old(e.nextRun)
    {
      if e.running {
        return;
      }
      e.running, e.lastRun := true, at;
      wg := wg + 1;
      core := Dispatch(core, e, at);
    }

    method RegisterJob(hasTask: bool, schedule: Option<Schedule>, poolId: int, lastRun: int, policy: Policy, now: int,
                       at: int)
      returns (outcome: Outcome)
      requires Valid()
      modifies this`jobs, this`token, this`wg, this`core
      ensures Valid()
      ensures !hasTask ==> outcome == NilTask
      ensures hasTask && schedule.None? ==> outcome == InvalidSchedule
      ensures hasTask && schedule.Some? ==> outcome == if old(stopped) then SchedulerStopped else Registered
      ensures outcome != Registered ==> core == old(core)
      ensures outcome == Registered ==>
                && poolId in jobs && fresh(jobs[poolId])
                && core ==
                   Register(old(core), jobs[poolId], JobConfig(poolId, schedule.value, lastRun, policy), now, at)
    {
      if !hasTask {
        return NilTask;
      }
      if schedule.None? {
        return InvalidSchedule;
      }
      if stopped {
        return SchedulerStopped;
      }
      var sched := schedule.value;
      var pendingImmediate := false;
      var nextRun: int;
      if lastRun != 0 {
        var expected := sched.next(lastRun);
        if expected < now {
          pendingImmediate := policy == RunImmediately;
          nextRun := sched.next(now);
        } else {
          nextRun := expected;
        }
      } else {
        nextRun := sched.next(now);
      }
      assert Entry(poolId, sched, lastRun, nextRun, false, pendingImmediate, []) ==
             NewEntry(JobConfig(poolId, sched, lastRun, policy), now);
      hide NewEntry, FirstRun, Missed;
      Install(poolId, sched, lastRun, nextRun, pendingImmediate, at);
      SignalWakeup();
      outcome := Registered;
    }

    method Install(poolId: int, sched: Schedule, lastRun: int, nextRun: int, pendingImmediate: bool, at: int)
      requires Valid() && !stopped
      modifies this`jobs, this`wg, this`core
      ensures Valid() && poolId in jobs && fresh(jobs[poolId])
      ensures core ==
              Installed(old(core), jobs[poolId], Entry(poolId, sched, lastRun, nextRun, false, pendingImmediate, []),
                        at)
    {
      var entry := new JobEntry(poolId, sched, lastRun, nextRun, pendingImmediate);
      jobs := jobs[poolId := entry];
      if running && pendingImmediate {
        entry.pendingImmediate := false;
        core := core.(entries := core.entries[entry := entry.Val()], jobs := jobs);
        DispatchJob(entry, at);
      } else {
        core := core.(entries := core.entries[entry := entry.Val()], jobs := jobs);
      }
    }

    method UnregisterJob(poolId: int) returns (found: bool)
      requires Valid()
      modifies this`jobs, this`token, this`core
      ensures Valid() && found == (poolId in old(jobs))
      ensures core == Unregister(old(core), poolId)
    {
      if poolId !in jobs {
        return false;
      }
      jobs := jobs - {poolId};
      core := core.(jobs := jobs);
      SignalWakeup();
      found := true;
    }

    /** The closing section of SyncJobs and SyncFromDB. */
    method PurgeAbsent(desired: set<int>)
      requires Valid()
      modifies this`jobs, this`token, this`core
      ensures Valid() && core == Purge(old(core), desired)
      ensures jobs.Keys == old(jobs).Keys * desired
    {
      ghost var all := jobs;
      ghost var gone: set<int> := {};
      var ids := jobs.Keys;
      while ids != {}
        invariant ids <= jobs.Keys && core == old(core) && token == old(token)
        invariant jobs == all - gone && gone == all.Keys - (ids + desired)
        decreases ids
      {
        ghost var some := Inhabited(ids);
        var id :| id in ids;
        PurgeOne(all, gone, ids, desired, id);
        if id !in desired {
          jobs := jobs - {id};
          gone := gone + {id};
        }
        ids := ids - {id};
      }
      assert gone == all.Keys - desired;
      core := core.(jobs := jobs);
      SignalWakeup();
    }

    /** SyncJobs: afterwards exactly the submitted pools have jobs; an error stops it with nothing removed. */
    method SyncJobs(configs: seq<JobRequest>, clock: nat -> int, dispatchClock: nat -> int) returns (outcome: Outcome)
      requires Valid()
      modifies this`jobs, this`token, this`wg, this`core
      ensures Valid() && stopped == old(stopped)
      ensures outcome == Registered <==>
              (forall k :: 0 <= k < |configs| ==> Acceptable(configs[k])) && (configs == [] || !old(stopped))
      ensures outcome == Registered ==> token && forall id :: id in jobs <==> Submitted(configs, id)
      ensures outcome != Registered ==> forall id :: id in old(jobs) ==> id in jobs
    {
      hide Register, Purge;
      var desired: set<int> := {};
      for i := 0 to |configs|
        invariant Valid() && stopped == old(stopped)
        invariant forall id :: id in desired <==> Submitted(configs[..i], id)
        invariant forall id :: id in jobs <==> id in old(jobs) || id in desired
        invariant forall k :: 0 <= k < i ==> Acceptable(configs[k])
        invariant i > 0 ==> !old(stopped)
      {
        assert configs[..i + 1] == configs[..i] + [configs[i]];
        SubmittedSnoc(configs[..i], configs[i]);
        hide Submitted;
        var cfg := configs[i];
        ghost var c := core;
        outcome :=
            RegisterJob(cfg.hasTask, cfg.schedule, cfg.poolId, cfg.lastRun, cfg.policy, clock(i), dispatchClock(i));
        if outcome != Registered {
          assert !Acceptable(configs[i]) || old(stopped);
          return;
        }
        RegisterKeys(c, jobs[cfg.poolId], JobConfig(cfg.poolId, cfg.schedule.value, cfg.lastRun, cfg.policy),
                     clock(i), dispatchClock(i));
        desired := desired + {cfg.poolId};
      }
      assert configs[..|configs|] == configs;
      ghost var c := core;
      PurgeAbsent(desired);
      PurgeFlags(c, desired);
      outcome := Registered;
    }

    /** SyncFromDB: `read` is None without a reader, and its rows are None if reading failed.  An expression
        that does not parse is passed over, and the job its pool already had stays. */
    method SyncFromDb(read: Option<Option<seq<RenovateRow>>>, clock: nat -> int, dispatchClock: nat -> int)
      returns (ok: bool)
      requires Valid()
      modifies this`jobs, this`token, this`wg, this`core
      ensures Valid() && stopped == old(stopped)
      ensures ok <==> read != Some(None)
      ensures read.None? || read.value.None? ==> core == old(core)
      ensures read.Some? && read.value.Some? ==>
                && token
                && forall id :: id in jobs <==>
                     Wanted(read.value.value, id) &&
                     (id in old(jobs) || (!old(stopped) && Parses(read.value.value, id)))
    {
      if read.None? {
        return true;
      }
      if read.value.None? {
        return false;
      }
      hide Register, Purge;
      var rows := read.value.value;
      var desired: set<int> := {};
      for i := 0 to |rows|
        invariant Valid() && stopped == old(stopped)
        invariant forall id :: id in desired <==> Wanted(rows[..i], id)
        invariant forall id :: id in jobs <==> id in old(jobs) || (!old(stopped) && Parses(rows[..i], id))
      {
        assert rows[..i + 1] == rows[..i] + [rows[i]];
        RowSnoc(rows[..i], rows[i]);
        var row := rows[i];
        hide Wanted, Parses;
        if row.wanted {
          desired := desired + {row.poolId};
          ghost var c := core;
          var outcome := RegisterJob(true, row.schedule, row.poolId, row.lastRun, RunImmediately,
                                     clock(i), dispatchClock(i));
          if outcome == Registered {
            RegisterKeys(c, jobs[row.poolId], JobConfig(row.poolId, row.schedule.value, row.lastRun, RunImmediately),
                         clock(i), dispatchClock(i));
          }
        }
      }
      assert rows[..|rows|] == rows;
      ghost var c := core;
      PurgeAbsent(desired);
      PurgeFlags(c, desired);
      ok := true;
    }

    method EarliestNextRun() returns (earliest: Option<int>)
      requires Valid()
      ensures IsEarliest(core, earliest)
    {
      earliest := None;
      var ids := jobs.Keys;
      while ids != {}
        invariant ids <= jobs.Keys
        invariant earliest.None? ==> forall id :: id in jobs && id !in ids ==> NextRun(core, id) == 0
        invariant earliest.Some? ==>
                    && earliest.value != 0
                    && (exists id :: id in jobs && NextRun(core, id) == earliest.value)
                    && (forall id :: id in jobs && id !in ids ==>
                          NextRun(core, id) == 0 || earliest.value <= NextRun(core, id))
        decreases ids
      {
        ghost var some := Inhabited(ids);
        var id :| id in ids;
        var n := jobs[id].nextRun;
        assert core.entries[jobs[id]] == jobs[id].Val();
        assert n == NextRun(core, id);
        if n != 0 && (earliest.None? || n < earliest.value) {
          earliest := Some(n);
        }
        ids := ids - {id};
      }
    }

    /** Start's section; the loop goroutine is launched afterwards. */
    method Start(at: int) returns (ok: bool)
      requires Valid()
      modifies this`running, this`wg, this`core, core.entries.Keys
      ensures Valid() && ok == (!old(running) && !old(stopped))
      ensures core == Begin(old(core), at)
    {
      if running || stopped {
        return false;
      }
      hide Begun, Pending, PendingIdle, Current;
      ghost var c := core;
      running := true;
      core := core.(running := true);
      var ids := jobs.Keys;
      ghost var done: set<JobEntry> := {};
      BegunNobody(c, at);
      MetNone(c, ids);
      while ids != {}
        invariant ids <= jobs.Keys && Valid() && jobs == c.jobs && core.entries.Keys == c.entries.Keys
        invariant done == Met(c, ids)
        invariant core == BegunSome(c, done, at)
        decreases ids
      {
        ghost var some := Inhabited(ids);
        var id :| id in ids;
        var e := jobs[id];
        MetOne(c, ids, id);
        BegunMore(c, done, e, at);
        BeginEntry(e, at);
        done := done + {e};
        ids := ids - {id};
      }
      MetAll(c);
      BegunAll(c, at);
      ok := true;
    }

    method BeginEntry(e: JobEntry, at: int)
      requires Valid() && e in core.entries
      modifies this`wg, this`core, e
      ensures Valid()
      ensures core == BegunEntry(old(core), e, at)
    {
      if e.pendingImmediate {
        e.pendingImmediate := false;
        core := core.(entries := core.entries[e := e.Val()]);
        DispatchJob(e, at);
      }
    }

    /** fireDueJobs's section; the returned entries are launched after the lock is released. */
    method FireDueJobs(now: int) returns (toDispatch: seq<JobEntry>)
      requires Valid()
      modifies this`core, core.entries.Keys
      ensures Valid() && core == Fire(old(core), now)
      ensures Lists(toDispatch, DueIdle(old(core), now))
    {
      hide Fired, IsDue, Lists, DueIdle, Due, Current;
      ghost var c := core;
      toDispatch := [];
      var ids := jobs.Keys;
      ghost var done: set<JobEntry> := {};
      FiredNobody(c, now);
      MetNone(c, ids);
      while ids != {}
        invariant ids <= jobs.Keys && Valid() && jobs == c.jobs && core.entries.Keys == c.entries.Keys
        invariant done == Met(c, ids)
        invariant core == c.(entries := FiredSome(c, done, now))
        invariant Lists(toDispatch, DueIdleMet(c, done, now))
        decreases ids
      {
        ghost var some := Inhabited(ids);
        var id :| id in ids;
        var e := jobs[id];
        MetOne(c, ids, id);
        FiredMore(c, done, e, now, toDispatch);
        var launch := FireEntry(e, now);
        if launch {
          toDispatch := toDispatch + [e];
        }
        done := done + {e};
        ids := ids - {id};
      }
      MetAll(c);
      FiredAll(c, now);
    }

    method FireEntry(e: JobEntry, now: int) returns (launch: bool)
      requires Valid() && e in core.entries
      modifies this`core, e
      ensures Valid()
      ensures launch == (IsDue(old(core).entries[e], now) && !old(core).entries[e].running)
      ensures core == if IsDue(old(core).entries[e], now)
                      then old(core).(entries := old(core).entries[e := Fired(old(core).entries[e], now)])
                      else old(core)
    {
      launch := false;
      if e.nextRun != 0 && e.nextRun <= now {
        if !e.running {
          e.lastRun := now;
          e.nextRun := e.schedule.next(now);
          e.running := true;
          e.fires := e.fires + [now];
          launch := true;
        } else {
          e.nextRun := e.schedule.next(now);
        }
        assert e.Val() == Fired(core.entries[e], now);
        hide Fired, IsDue;
        Record(e);
      }
    }

    /** The mirror catches up with an entry just changed. */
    ghost method Record(e: JobEntry)
      requires e in core.entries && Flags() && (forall x :: x in core.entries && x != e ==> x.Val() == core.entries[x])
      requires e.poolId == core.entries[e].poolId
      modifies this`core
      ensures Valid() && core == old(core).(entries := old(core).entries[e := e.Val()])
    {
      core := core.(entries := core.entries[e := e.Val()]);
    }

    /** `go` for one entry of fireDueJobs's list. */
    method LaunchTask(e: JobEntry)
      requires Valid()
      modifies this`wg, this`core
      ensures Valid() && core == Launch(old(core), e)
    {
      wg := wg + 1;
      core := Launch(core, e);
    }

    /** The task's deferred section. */
    method FinishTask(e: JobEntry)
      requires Valid() && e in core.entries
      modifies this`core, e`running
      ensures Valid() && core == Finish(old(core), e)
    {
      e.running := false;
      core := Finish(core, e);
    }

    /** Stop's section; `mustWait` is false for a call that found nothing to stop. */
    method StopSection() returns (mustWait: bool)
      requires Valid()
      modifies this`running, this`stopped, this`core
      ensures Valid() && mustWait == (old(running) && !old(stopped))
      ensures core == Halt(old(core))
    {
      if !running || stopped {
        return false;
      }
      stopped, running := true, false;
      core := Halt(core);
      mustWait := true;
    }
  }

  // ---------------------------------------------------------------- loop book-keeping

  ghost predicate Submitted(configs: seq<JobRequest>, id: int) {
    exists k :: 0 <= k < |configs| && configs[k].poolId == id
  }

  lemma SubmittedSnoc(configs: seq<JobRequest>, cfg: JobRequest)
    ensures forall id :: Submitted(configs + [cfg], id) <==> Submitted(configs, id) || cfg.poolId == id
  {
    var all := configs + [cfg];
    assert all[|configs|] == cfg;
    assert forall k :: 0 <= k < |configs| ==> all[k] == configs[k];
  }

  ghost predicate Wanted(rows: seq<RenovateRow>, id: int) {
    exists k :: 0 <= k < |rows| && rows[k].wanted && rows[k].poolId == id
  }

  /** Some wanted row of this pool has an expression that parses. */
  ghost predicate Parses(rows: seq<RenovateRow>, id: int) {
    exists k :: 0 <= k < |rows| && rows[k].wanted && rows[k].poolId == id && rows[k].schedule.Some?
  }

  lemma RowSnoc(rows: seq<RenovateRow>, row: RenovateRow)
    ensures forall id :: Wanted(rows + [row], id) <==> Wanted(rows, id) || (row.wanted && row.poolId == id)
    ensures forall id :: Parses(rows + [row], id) <==>
              Parses(rows, id) || (row.wanted && row.poolId == id && row.schedule.Some?)
  {
    var all := rows + [row];
    assert all[|rows|] == row;
    assert forall k :: 0 <= k < |rows| ==> all[k] == rows[k];
  }

  lemma RegisterKeys(c: Core<JobEntry>, e: JobEntry, cfg: JobConfig, now: int, at: int)
    requires !c.stopped
    ensures Register(c, e, cfg, now, at).jobs.Keys == c.jobs.Keys + {cfg.poolId}
    ensures Register(c, e, cfg, now, at).stopped == c.stopped
  {
    hide NewEntry;
  }

  lemma PurgeFlags(c: Core<JobEntry>, desired: set<int>)
    ensures Purge(c, desired).token && Purge(c, desired).stopped == c.stopped
  {
  }

  lemma PurgeOne(all: map<int, JobEntry>, gone: set<int>, ids: set<int>, desired: set<int>, id: int)
    requires id in ids && ids <= (all - gone).Keys && gone == all.Keys - (ids + desired)
    ensures id !in desired ==> all - gone - {id} == all - (gone + {id})
    ensures all.Keys - (ids - {id} + desired) == if id in desired then gone else gone + {id}
    ensures ids - {id} <= (all - gone - {id}).Keys
  {
  }

  /** Filing a new entry, and dispatching it if the scheduler runs and a fire was missed. */
  ghost function Installed(c: Core<JobEntry>, e: JobEntry, entry: Entry, at: int): Core<JobEntry> {
    if c.running && entry.pendingImmediate then
      Dispatch(c.(entries := c.entries[e := entry.(pendingImmediate := false)], jobs := c.jobs[entry.poolId := e]), e,
               at)
    else c.(entries := c.entries[e := entry], jobs := c.jobs[entry.poolId := e])
  }

  /** The current entries a walk over the jobs has met when `ids` are still to come. */
  ghost function Met(c: Core<JobEntry>, ids: set<int>): set<JobEntry> {
    set id | id in c.jobs && id !in ids :: c.jobs[id]
  }

  ghost predicate Filed(c: Core<JobEntry>) {
    forall id :: id in c.jobs ==> c.jobs[id] in c.entries && c.entries[c.jobs[id]].poolId == id
  }

  lemma MetNone(c: Core<JobEntry>, ids: set<int>)
    requires ids == c.jobs.Keys
    ensures Met(c, ids) == {}
  {
  }

  lemma MetOne(c: Core<JobEntry>, ids: set<int>, id: int)
    requires Filed(c) && id in ids && id in c.jobs
    ensures c.jobs[id] !in Met(c, ids) && c.jobs[id] in Current(c)
    ensures Met(c, ids - {id}) == Met(c, ids) + {c.jobs[id]}
  {
  }

  lemma MetAll(c: Core<JobEntry>)
    ensures Met(c, {}) == Current(c)
  {
  }

  /** Entries after the fire loop has met those in `done`. */
  ghost function FiredSome(c: Core<JobEntry>, done: set<JobEntry>, now: int): map<JobEntry, Entry> {
    map e | e in c.entries :: if e in done && IsDue(c.entries[e], now) then Fired(c.entries[e], now) else c.entries[e]
  }

  ghost function DueIdleMet(c: Core<JobEntry>, done: set<JobEntry>, now: int): set<JobEntry> {
    set e | e in done && e in c.entries && IsDue(c.entries[e], now) && !c.entries[e].running
  }

  lemma FiredNobody(c: Core<JobEntry>, now: int)
    ensures FiredSome(c, {}, now) == c.entries && Lists([], DueIdleMet(c, {}, now))
  {
  }

  lemma FiredMore(c: Core<JobEntry>, done: set<JobEntry>, e: JobEntry, now: int, list: seq<JobEntry>)
    requires e !in done && e in c.entries && Lists(list, DueIdleMet(c, done, now))
    ensures FiredSome(c, done, now)[e] == c.entries[e]
    ensures FiredSome(c, done + {e}, now) ==
            if IsDue(c.entries[e], now) then FiredSome(c, done, now)[e := Fired(c.entries[e], now)]
            else FiredSome(c, done, now)
    ensures Lists(if IsDue(c.entries[e], now) && !c.entries[e].running then list + [e] else list,
                     DueIdleMet(c, done + {e}, now))
  {
    hide IsDue, Fired;
    var more := DueIdleMet(c, done + {e}, now);
    if IsDue(c.entries[e], now) && !c.entries[e].running {
      assert more == DueIdleMet(c, done, now) + {e};
      assert e !in list;
    } else {
      assert more == DueIdleMet(c, done, now);
    }
  }

  lemma FiredAll(c: Core<JobEntry>, now: int)
    ensures c.(entries := FiredSome(c, Current(c), now)) == Fire(c, now)
    ensures DueIdleMet(c, Current(c), now) == DueIdle(c, now)
  {
  }

  /** The state after Start's loop has met the jobs in `done`. */
  ghost function BegunSome(c: Core<JobEntry>, done: set<JobEntry>, at: int): Core<JobEntry> {
    var started := PendingIdle(c) * done;
    c.(running := true,
       entries := map e | e in c.entries :: if e in Pending(c) * done then Begun(c.entries[e], at) else c.entries[e],
       tasks := c.tasks + multiset(started), wg := c.wg + |started|, launched := c.launched + |started|)
  }

  ghost function BegunEntry(c: Core<JobEntry>, e: JobEntry, at: int): Core<JobEntry>
    requires e in c.entries
  {
    if c.entries[e].pendingImmediate
    then Dispatch(c.(entries := c.entries[e := c.entries[e].(pendingImmediate := false)]), e, at) else c
  }

  lemma BegunNobody(c: Core<JobEntry>, at: int)
    ensures BegunSome(c, {}, at) == c.(running := true)
  {
    assert PendingIdle(c) * {} == {};
    assert Pending(c) * {} == {};
    hide Begun, Pending, PendingIdle;
  }

  lemma BegunMore(c: Core<JobEntry>, done: set<JobEntry>, e: JobEntry, at: int)
    requires e !in done && e in Current(c) && e in c.entries
    ensures e in BegunSome(c, done, at).entries
    ensures BegunSome(c, done + {e}, at) == BegunEntry(BegunSome(c, done, at), e, at)
  {
    assert e in Pending(c) <==> c.entries[e].pendingImmediate;
    assert e in PendingIdle(c) <==> c.entries[e].pendingImmediate && !c.entries[e].running;
    BegunEntries(c, done, e, at);
    BegunCounts(c, done, at);
    BegunCounts(c, done + {e}, at);
    GrowStarted(PendingIdle(c), done, e);
    BegunJoin(c, BegunSome(c, done, at), BegunSome(c, done + {e}, at), PendingIdle(c) * done,
              PendingIdle(c) * (done + {e}), e, at);
  }

  ghost predicate Counted(c: Core<JobEntry>, b: Core<JobEntry>, started: set<JobEntry>) {
    b == c.(running := true, entries := b.entries, tasks := c.tasks + multiset(started),
            wg := c.wg + |started|, launched := c.launched + |started|)
  }

  lemma BegunJoin(c: Core<JobEntry>, b: Core<JobEntry>, b2: Core<JobEntry>, s1: set<JobEntry>, s2: set<JobEntry>,
                  e: JobEntry, at: int)
    requires e in c.entries && e in b.entries && b.entries[e] == c.entries[e]
    requires Counted(c, b, s1) && Counted(c, b2, s2)
    requires b2.entries == if c.entries[e].pendingImmediate then b.entries[e := Begun(c.entries[e], at)] else b.entries
    requires if c.entries[e].pendingImmediate && !c.entries[e].running
             then multiset(s2) == multiset(s1) + multiset{e} && |s2| == |s1| + 1 else s2 == s1
    ensures b2 == BegunEntry(b, e, at)
  {
    if c.entries[e].pendingImmediate && !c.entries[e].running {
      assert c.tasks + multiset(s2) == c.tasks + multiset(s1) + multiset{e};
    }
  }

  lemma BegunCounts(c: Core<JobEntry>, done: set<JobEntry>, at: int)
    ensures var b := BegunSome(c, done, at);
            && Counted(c, b, PendingIdle(c) * done)
            && b.entries.Keys == c.entries.Keys && forall e :: e in c.entries && e !in done ==>
                 b.entries[e] == c.entries[e]
  {
    hide Pending, PendingIdle, Begun;
  }

  lemma GrowStarted(all: set<JobEntry>, done: set<JobEntry>, e: JobEntry)
    requires e !in done
    ensures e in all ==> multiset(all * (done + {e})) == multiset(all * done) + multiset{e}
    ensures e in all ==> |all * (done + {e})| == |all * done| + 1
    ensures e !in all ==> all * (done + {e}) == all * done
  {
    if e in all {
      assert all * (done + {e}) == all * done + {e};
    }
  }

  lemma BegunEntries(c: Core<JobEntry>, done: set<JobEntry>, e: JobEntry, at: int)
    requires e !in done && e in c.entries && (e in Pending(c) <==> c.entries[e].pendingImmediate)
    ensures BegunSome(c, done + {e}, at).entries ==
            if c.entries[e].pendingImmediate then BegunSome(c, done, at).entries[e := Begun(c.entries[e], at)]
            else BegunSome(c, done, at).entries
  {
    hide Pending, PendingIdle, Begun;
  }

  lemma BegunAll(c: Core<JobEntry>, at: int)
    requires !c.running && !c.stopped
    ensures BegunSome(c, Current(c), at) == Begin(c, at)
  {
    assert PendingIdle(c) * Current(c) == PendingIdle(c);
    assert Pending(c) * Current(c) == Pending(c);
    hide Begun, Pending, PendingIdle, Current;
  }
}
