/** internal/cron/scheduler.go: when jobs are due next, over whole behaviours, said on the fields of the
    entries. */
module CronTimes {
  import opened Basics
  import opened CronProtocol

  /** The entry is a current job. */
  ghost predicate IsJob<E>(c: Core<E>, e: E) {
    exists id :: id in c.jobs && c.jobs[id] == e
  }

  /** The entry is a current job whose time has come. */
  ghost predicate TimeHasCome<E>(s: State<E>, e: E)
    requires e in s.core.entries && s.loop.Firing?
  {
    IsJob(s.core, e) && s.core.entries[e].nextRun != 0 && s.core.entries[e].nextRun <= s.loop.now
  }

  lemma DueIs<E>(s: State<E>, e: E)
    requires e in s.core.entries && s.loop.Firing?
    ensures e in Due(s.core, s.loop.now) <==> TimeHasCome(s, e)
    ensures e in DueIdle(s.core, s.loop.now) <==> TimeHasCome(s, e) && !s.core.entries[e].running
  {
  }

  // ---------------------------------------------------------------- one step

  /** What one step does to the times of an entry that existed: a fire moves a job whose time has come to
      the next point of its schedule after the fire, whether it is launched or still running, and marks it
      running; nothing else moves a next run.  The last run is when the entry was last started. */
  ghost predicate Moves<E>(s: State<E>, step: Step<E>, t: State<E>, e: E)
    requires e in s.core.entries && e in t.core.entries
  {
    var a, b := s.core.entries[e], t.core.entries[e];
    && b.schedule == a.schedule && b.poolId == a.poolId
    && (if step.LoopFire? && s.loop.Firing? && TimeHasCome(s, e) then
          && b.nextRun == a.schedule.next(s.loop.now) && b.running
          && b.lastRun == (if a.running then a.lastRun else s.loop.now)
          && b.fires == (if a.running then a.fires else a.fires + [s.loop.now])
        else
          && b.nextRun == a.nextRun && b.fires == a.fires
          && (if step.DoStart? && b.running && !a.running then b.lastRun == step.at else b.lastRun == a.lastRun))
  }

  lemma FireMoves<E>(s: State<E>, step: Step<E>, e: E)
    requires Enabled(s, step) && step.LoopFire? && e in s.core.entries
    ensures e in Next(s, step).core.entries && Moves(s, step, Next(s, step), e)
  {
    hide Lists, DueIdle, IsEarliest, Lawful;
    DueIs(s, e);
    hide Due, TimeHasCome;
  }

  lemma StartMoves<E>(s: State<E>, step: Step<E>, e: E)
    requires Enabled(s, step) && step.DoStart? && e in s.core.entries
    ensures e in Next(s, step).core.entries && Moves(s, step, Next(s, step), e)
  {
    hide PendingIdle, Pending, IsEarliest, Lawful;
  }

  lemma RegisterMoves<E>(s: State<E>, step: Step<E>, e: E)
    requires Enabled(s, step) && step.DoRegister? && e in s.core.entries
    ensures e in Next(s, step).core.entries && Moves(s, step, Next(s, step), e)
  {
    RegisterEffect(s.core, step.e, step.cfg, step.now, step.at);
    hide Register, Lawful;
  }

  lemma EndMoves<E>(s: State<E>, step: Step<E>, e: E)
    requires Enabled(s, step) && step.TaskEnd? && e in s.core.entries
    ensures e in Next(s, step).core.entries && Moves(s, step, Next(s, step), e)
  {
  }

  lemma StepMoves<E>(s: State<E>, step: Step<E>, e: E)
    requires Enabled(s, step) && e in s.core.entries
    ensures e in Next(s, step).core.entries && Moves(s, step, Next(s, step), e)
  {
    if step.LoopFire? {
      FireMoves(s, step, e);
    } else if step.DoStart? {
      StartMoves(s, step, e);
    } else if step.DoRegister? {
      RegisterMoves(s, step, e);
    } else if step.TaskEnd? {
      EndMoves(s, step, e);
    } else {
      OtherSteps(s, step);
      hide Next, Enabled;
    }
  }

  /** A new entry: due at the first point after its last run unless that is already past, and then, or if
      it never ran, at the first point from now; its last run as configured, or now if it starts at once. */
  lemma NewEntryTimes<E>(s: State<E>, step: Step<E>)
    requires Enabled(s, step) && step.DoRegister? && !s.core.stopped
    ensures var b, cfg := Next(s, step).core.entries, step.cfg;
            && step.e in b && b[step.e].schedule == cfg.schedule && b[step.e].fires == []
            && b[step.e].nextRun == (if cfg.lastRun != 0 && cfg.schedule.next(cfg.lastRun) >= step.now
                                     then cfg.schedule.next(cfg.lastRun) else cfg.schedule.next(step.now))
            && b[step.e].lastRun == (if b[step.e].running then step.at else cfg.lastRun)
  {
    hide Lawful;
  }

  /** The Start that takes effect dispatches every current job with a missed fire pending, once, and leaves every
      other entry as it is. */
  lemma StartDispatches<E>(s: State<E>, step: Step<E>, e: E)
    requires Inv(s) && Enabled(s, step) && step.DoStart? && !s.core.running && !s.core.stopped && e in s.core.entries
    ensures var a, t := s.core.entries[e], Next(s, step);
            && t.core.running && t.loop == Ready && e in t.core.entries
            && (var b := t.core.entries[e];
                if IsJob(s.core, e) && a.pendingImmediate
                then b == a.(pendingImmediate := false, running := true, lastRun := step.at) && t.core.tasks[e] == 1
                else b == a && t.core.tasks[e] == 0)
  {
    NobodyRuns(s);
    assert s.core.tasks == multiset{};
    assert e in Pending(s.core) <==> IsJob(s.core, e) && s.core.entries[e].pendingImmediate;
    assert PendingIdle(s.core) == Pending(s.core);
    hide Pending, PendingIdle, InvFlight, InvPark, InvFires, InvJobs, IsJob;
  }

  // ---------------------------------------------------------------- every behaviour

  /** Every timer fire, in every behaviour: each job whose time has come is next due at the first point of
      its schedule after the fire, launched or not, and if launched its last run is the time of the fire. */
  lemma FireReschedules<E>(ss: seq<State<E>>, steps: seq<Step<E>>, n: nat, e: E)
    requires IsBehavior(ss, steps) && n < |steps| && steps[n].LoopFire? && e in ss[n].core.entries
    ensures ss[n].loop.Firing? && e in ss[n + 1].core.entries
    ensures TimeHasCome(ss[n], e) ==>
              var a, b, now := ss[n].core.entries[e], ss[n + 1].core.entries[e], ss[n].loop.now;
              && b.nextRun == a.schedule.next(now) && b.running
              && b.lastRun == (if a.running then a.lastRun else now)
    ensures !TimeHasCome(ss[n], e) ==> ss[n + 1].core.entries[e] == ss[n].core.entries[e]
  {
    var s, t := ss[n], ss[n + 1];
    assert t == Next(s, steps[n]) && Enabled(s, steps[n]);
    FireMoves(s, steps[n], e);
    DueIs(s, e);
    if !TimeHasCome(s, e) {
      FireSpares(s, steps[n], e);
    }
  }

  lemma FireSpares<E>(s: State<E>, step: Step<E>, e: E)
    requires Enabled(s, step) && step.LoopFire? && e in s.core.entries && e !in Due(s.core, s.loop.now)
    ensures Next(s, step).core.entries[e] == s.core.entries[e]
  {
    hide Lists, DueIdle, Due;
  }

  /** The next run is the first point of the schedule after some time at or after the last timer dispatch. */
  ghost predicate Anchored(entry: Entry, since: int) {
    && since > 0 && entry.nextRun == entry.schedule.next(since)
    && (entry.fires != [] ==> since >= entry.fires[|entry.fires| - 1])
  }

  lemma AnchorMoves<E>(s: State<E>, step: Step<E>, e: E, since: int) returns (after: int)
    requires Inv(s) && Enabled(s, step) && e in s.core.entries && Anchored(s.core.entries[e], since)
    ensures e in Next(s, step).core.entries && Anchored(Next(s, step).core.entries[e], after)
  {
    hide Next, Enabled, Inv, IsJob, FiresApart;
    StepMoves(s, step, e);
    after := since;
    if step.LoopFire? && s.loop.Firing? && TimeHasCome(s, e) {
      after := s.loop.now;
      AnchorFacts(s, e);
      AnchorFires(s.core.entries[e], Next(s, step).core.entries[e], s.loop.now);
    }
  }

  lemma AnchorFacts<E>(s: State<E>, e: E)
    requires Inv(s) && e in s.core.entries
    ensures FiresApart(s.core.entries[e]) && (s.loop.Firing? ==> s.loop.now > 0)
  {
    hide FiresApart, InvFlight, InvPark, InvJobs;
  }

  lemma AnchorFires(a: Entry, b: Entry, now: int)
    requires FiresApart(a) && a.nextRun != 0 && a.nextRun <= now && now > 0
    requires b.schedule == a.schedule && b.nextRun == a.schedule.next(now)
    requires b.fires == a.fires || b.fires == a.fires + [now]
    ensures Anchored(b, now)
  {
    if a.fires != [] {
      assert SpacedBy(a.schedule, a.fires[|a.fires| - 1], a.nextRun);
    }
  }

  lemma {:induction false} AnchoredThroughout<E>(ss: seq<State<E>>, steps: seq<Step<E>>, n: nat, e: E)
    returns (since: int)
    requires IsBehavior(ss, steps) && Initial(ss[0]) && n <= |steps| && e in ss[n].core.entries
    ensures Anchored(ss[n].core.entries[e], since)
  {
    BehaviorLength(ss, steps);
    if n == 0 {
      since := 0;
      assert false;
    } else {
      BehaviorStep(ss, steps, n - 1);
      var s, step := ss[n - 1], steps[n - 1];
      if e in s.core.entries {
        since := AnchoredThroughout(ss, steps, n - 1, e);
        InitInv(ss[0]);
        InvHolds(ss, steps, n - 1);
        hide Inv, Enabled, Next;
        since := AnchorMoves(s, step, e, since);
      } else {
        NewOnlyByRegister(s, step, e);
        NewEntryTimes(s, step);
        RegisterTimes(s, step);
        hide Next, Enabled;
        since := if step.cfg.lastRun != 0 && step.cfg.schedule.next(step.cfg.lastRun) >= step.now
                 then step.cfg.lastRun else step.now;
      }
    }
  }

  lemma NewOnlyByRegister<E>(s: State<E>, step: Step<E>, e: E)
    requires Enabled(s, step) && e in Next(s, step).core.entries && e !in s.core.entries
    ensures step.DoRegister? && !s.core.stopped && e == step.e
  {
    Frame(s, step);
    hide Next, Enabled;
    assert Added(s, Next(s, step), step, e);
  }

  lemma RegisterTimes<E>(s: State<E>, step: Step<E>)
    requires Enabled(s, step) && step.DoRegister?
    ensures step.cfg.lastRun >= 0 && step.now > 0
  {
  }

  /** No point of a schedule is passed over: in every state of every behaviour, the next run of an entry is
      the first point after a time `since`, which is not before its last timer dispatch; it is none only if
      the schedule has none after `since`, and otherwise no later than the point after any later time. */
  lemma NothingPassedOver<E>(ss: seq<State<E>>, steps: seq<Step<E>>, n: nat, e: E) returns (since: int)
    requires IsBehavior(ss, steps) && Initial(ss[0]) && n <= |steps| && e in ss[n].core.entries
    ensures var entry := ss[n].core.entries[e];
            && since > 0 && entry.nextRun == entry.schedule.next(since)
            && (forall i :: 0 <= i < |entry.fires| ==> entry.fires[i] <= since)
            && (entry.nextRun != 0 ==>
                  forall u :: u >= since && entry.schedule.next(u) != 0 ==> entry.nextRun <= entry.schedule.next(u))
  {
    since := AnchoredThroughout(ss, steps, n, e);
    InitInv(ss[0]);
    InvHolds(ss, steps, n);
    var entry := ss[n].core.entries[e];
    assert FiresApart(entry) && Lawful(entry.schedule);
    FiresOrdered(entry);
    hide IsBehavior, Inv;
  }

  lemma {:induction false} FiresOrdered(entry: Entry)
    requires FiresApart(entry)
    ensures forall i :: 0 <= i < |entry.fires| ==> entry.fires[i] <= entry.fires[|entry.fires| - 1]
  {
    forall i | 0 <= i < |entry.fires| ensures entry.fires[i] <= entry.fires[|entry.fires| - 1] {
      FireBeforeLast(entry, i);
    }
  }

  lemma {:induction false} FireBeforeLast(entry: Entry, i: nat)
    requires FiresApart(entry) && i < |entry.fires|
    ensures entry.fires[i] <= entry.fires[|entry.fires| - 1]
    decreases |entry.fires| - i
  {
    if i + 1 < |entry.fires| {
      assert SpacedBy(entry.schedule, entry.fires[i], entry.fires[i + 1]);
      FireBeforeLast(entry, i + 1);
    }
  }

  // ---------------------------------------------------------------- the loop, on the fields

  /** A fire queues for launch exactly the current jobs whose time has come and that are idle, each once, and
      no current job is due at the time of the fire afterwards. */
  lemma FireLaunches<E>(ss: seq<State<E>>, steps: seq<Step<E>>, n: nat, e: E)
    requires IsBehavior(ss, steps) && Initial(ss[0]) && n < |steps| && steps[n].LoopFire? && e in ss[n].core.entries
    ensures ss[n].loop.Firing? && ss[n + 1].loop.Dispatching? && e in ss[n + 1].core.entries
    ensures e in ss[n + 1].loop.toDispatch <==> TimeHasCome(ss[n], e) && !ss[n].core.entries[e].running
    ensures multiset(ss[n + 1].loop.toDispatch)[e] <= 1
    ensures IsJob(ss[n + 1].core, e) ==>
              ss[n + 1].core.entries[e].nextRun == 0 || ss[n + 1].core.entries[e].nextRun > ss[n].loop.now
  {
    FireServesDue(ss, steps, n);
    assert ss[n + 1] == Next(ss[n], steps[n]) && Enabled(ss[n], steps[n]);
    DueIs(ss[n], e);
    OnceInList(ss[n + 1].loop.toDispatch, DueIdle(ss[n].core, ss[n].loop.now), e);
    hide IsBehavior, Next, Enabled, DueIdle, TimeHasCome;
    if IsJob(ss[n + 1].core, e) {
      var id :| id in ss[n + 1].core.jobs && ss[n + 1].core.jobs[id] == e;
    }
  }

  lemma {:induction false} OnceInList<E>(order: seq<E>, all: set<E>, e: E)
    requires Lists(order, all)
    ensures multiset(order)[e] <= 1
  {
    if order != [] {
      var n := |order| - 1;
      var init := order[..n];
      assert order == init + [order[n]];
      assert order[n] !in init;
      OnceInList(init, all - {order[n]}, e) by {
        InitLists(order, all);
      }
    }
  }

  lemma InitLists<E>(order: seq<E>, all: set<E>)
    requires Lists(order, all) && order != []
    ensures Lists(order[..|order| - 1], all - {order[|order| - 1]})
  {
    assert order == order[..|order| - 1] + [order[|order| - 1]];
  }

  /** A loop asleep with no wakeup pending has no deadline only if no current job has a next run, and otherwise
      one that is no later than that of any current job and is that of one of them. */
  lemma AsleepUntilTheFirst<E>(ss: seq<State<E>>, steps: seq<Step<E>>, n: nat, id: int) returns (first: int)
    requires IsBehavior(ss, steps) && Initial(ss[0]) && n <= |steps|
    requires ss[n].loop.Parked? && !ss[n].core.token && id in ss[n].core.jobs
    ensures ss[n].core.jobs[id] in ss[n].core.entries
    ensures var next, deadline := ss[n].core.entries[ss[n].core.jobs[id]].nextRun, ss[n].loop.deadline;
            && (deadline.None? ==> next == 0)
            && (deadline.Some? ==> next == 0 || deadline.value <= next)
    ensures ss[n].loop.deadline.Some? ==>
              && first in ss[n].core.jobs && ss[n].core.jobs[first] in ss[n].core.entries
              && ss[n].core.entries[ss[n].core.jobs[first]].nextRun == ss[n].loop.deadline.value
  {
    InitInv(ss[0]);
    InvHolds(ss, steps, n);
    ParkedDeadlineIsRight(ss, steps, n);
    var c := ss[n].core;
    assert NextRun(c, id) == c.entries[c.jobs[id]].nextRun;
    first := id;
    if ss[n].loop.deadline.Some? {
      first :| first in c.jobs && NextRun(c, first) == ss[n].loop.deadline.value;
    }
  }
}
