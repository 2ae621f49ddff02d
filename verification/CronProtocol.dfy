/** internal/cron/scheduler.go as a protocol: the ticking loop, the one-slot wakeup channel, task
    goroutines, registration from any goroutine, and Stop.  Every step is one critical section or one
    channel operation, and steps interleave freely.

    `E` is the identity of a job entry: registering a pool again makes a new entry. */
module CronProtocol {
  import opened Basics

  /** Times are positive; 0 is the zero time.  `next(t)` is 0 when the schedule has no later fire. */
  datatype Schedule = Schedule(next: int -> int)

  ghost predicate Lawful(sch: Schedule) {
    && (forall t :: 0 < t ==> sch.next(t) == 0 || sch.next(t) > t)
    && (forall t, u :: 0 < t <= u && sch.next(t) != 0 && sch.next(u) != 0 ==> sch.next(t) <= sch.next(u))
  }

  datatype Policy = RunImmediately | Skip

  /** `fires` is history: when the timer dispatched this entry. */
  datatype Entry = Entry(
    poolId: int, schedule: Schedule, lastRun: int, nextRun: int,
    running: bool, pendingImmediate: bool, fires: seq<int>)

  /** What the mutex protects, and the wait group.  `launched` is history: tasks ever started. */
  datatype Core<E> = Core(
    entries: map<E, Entry>, jobs: map<int, E>, token: bool, running: bool, stopped: bool,
    tasks: multiset<E>, wg: nat, launched: nat)

  datatype JobConfig = JobConfig(poolId: int, schedule: Schedule, lastRun: int, policy: Policy)

  // ---------------------------------------------------------------- critical sections

  ghost function Signal<E>(c: Core<E>): Core<E> {
    c.(token := true)
  }

  ghost function Launch<E>(c: Core<E>, e: E): Core<E> {
    c.(tasks := c.tasks + multiset{e}, wg := c.wg + 1, launched := c.launched + 1)
  }

  /** dispatchJobLocked. */
  ghost function Dispatch<E>(c: Core<E>, e: E, at: int): Core<E>
    requires e in c.entries
  {
    if c.entries[e].running then c
    else Launch(c.(entries := c.entries[e := c.entries[e].(running := true, lastRun := at)]), e)
  }

  /** The expected fire after the last run was missed. */
  predicate Missed(cfg: JobConfig, now: int) {
    cfg.lastRun != 0 && cfg.schedule.next(cfg.lastRun) < now
  }

  function FirstRun(cfg: JobConfig, now: int): int {
    if cfg.lastRun != 0 && !Missed(cfg, now) then cfg.schedule.next(cfg.lastRun) else cfg.schedule.next(now)
  }

  function NewEntry(cfg: JobConfig, now: int): Entry {
    Entry(cfg.poolId, cfg.schedule, cfg.lastRun, FirstRun(cfg, now), false,
          Missed(cfg, now) && cfg.policy == RunImmediately, [])
  }

  /** RegisterJob with a valid configuration; `e` is the new entry. */
  ghost function Register<E>(c: Core<E>, e: E, cfg: JobConfig, now: int, at: int): Core<E> {
    if c.stopped then c
    else
      var entry := NewEntry(cfg, now);
      if c.running && entry.pendingImmediate then
        var d := c.(entries := c.entries[e := entry.(pendingImmediate := false)], jobs := c.jobs[cfg.poolId := e]);
        Signal(Dispatch(d, e, at))
      else
        Signal(c.(entries := c.entries[e := entry], jobs := c.jobs[cfg.poolId := e]))
  }

  ghost function Unregister<E>(c: Core<E>, id: int): Core<E> {
    if id in c.jobs then Signal(c.(jobs := c.jobs - {id})) else c
  }

  /** The last section of SyncJobs and SyncFromDB: drop jobs that are not wanted. */
  ghost function Purge<E>(c: Core<E>, desired: set<int>): Core<E> {
    Signal(c.(jobs := c.jobs - (c.jobs.Keys - desired)))
  }

  ghost function Current<E>(c: Core<E>): set<E> {
    set id | id in c.jobs :: c.jobs[id]
  }

  ghost function Pending<E>(c: Core<E>): set<E> {
    set e | e in Current(c) && e in c.entries && c.entries[e].pendingImmediate
  }

  ghost function PendingIdle<E>(c: Core<E>): set<E> {
    set e | e in Pending(c) && !c.entries[e].running
  }

  ghost function Begun(entry: Entry, at: int): Entry {
    if entry.running then entry.(pendingImmediate := false)
    else entry.(pendingImmediate := false, running := true, lastRun := at)
  }

  /** Start's section: go live and dispatch every pending entry. */
  ghost function Begin<E>(c: Core<E>, at: int): Core<E> {
    if c.running || c.stopped then c
    else c.(running := true,
            entries := map e | e in c.entries :: if e in Pending(c) then Begun(c.entries[e], at) else c.entries[e],
            tasks := c.tasks + multiset(PendingIdle(c)),
            wg := c.wg + |PendingIdle(c)|, launched := c.launched + |PendingIdle(c)|)
  }

  /** Stop's section, for the call that finds the scheduler running. */
  ghost function Halt<E>(c: Core<E>): Core<E> {
    if !c.running || c.stopped then c else c.(running := false, stopped := true)
  }

  predicate IsDue(entry: Entry, now: int) {
    entry.nextRun != 0 && entry.nextRun <= now
  }

  ghost function Due<E>(c: Core<E>, now: int): set<E> {
    set e | e in Current(c) && e in c.entries && IsDue(c.entries[e], now)
  }

  ghost function DueIdle<E>(c: Core<E>, now: int): set<E> {
    set e | e in Due(c, now) && !c.entries[e].running
  }

  function Fired(entry: Entry, now: int): Entry {
    if entry.running then entry.(nextRun := entry.schedule.next(now))
    else entry.(lastRun := now, nextRun := entry.schedule.next(now), running := true, fires := entry.fires + [now])
  }

  /** fireDueJobs's section. */
  ghost function Fire<E>(c: Core<E>, now: int): Core<E> {
    c.(entries := map e | e in c.entries :: if e in Due(c, now) then Fired(c.entries[e], now) else c.entries[e])
  }

  /** A task's own section when it ends. */
  ghost function Finish<E>(c: Core<E>, e: E): Core<E>
    requires e in c.entries
  {
    c.(entries := c.entries[e := c.entries[e].(running := false)], tasks := c.tasks - multiset{e})
  }

  /** earliestNextRunLocked: the least non-zero next run of the current jobs, if any. */
  ghost predicate IsEarliest<E>(c: Core<E>, d: Option<int>) {
    match d
    case None => forall id :: id in c.jobs ==> NextRun(c, id) == 0
    case Some(m) =>
      && m != 0
      && (exists id :: id in c.jobs && NextRun(c, id) == m)
      && (forall id :: id in c.jobs ==> NextRun(c, id) == 0 || m <= NextRun(c, id))
  }

  ghost function NextRun<E>(c: Core<E>, id: int): int
    requires id in c.jobs
  {
    if c.jobs[id] in c.entries then c.entries[c.jobs[id]].nextRun else 0
  }

  // ---------------------------------------------------------------- the protocol

  datatype Loop<E> =
    | NotStarted
    | Ready
    | Parked(deadline: Option<int>)
    | Firing(now: int)
    | Dispatching(toDispatch: seq<E>)
    | Exited

  datatype StopPhase = NoStop | AwaitLoop | AwaitTasks | Returned

  /** `finishing` counts tasks that cleared their flag but have not yet left the wait group. */
  datatype State<E> = State(core: Core<E>, loop: Loop<E>, stop: StopPhase, finishing: nat, cancelled: bool)

  datatype Step<E> =
    | DoRegister(e: E, cfg: JobConfig, now: int, at: int)
    | DoUnregister(id: int)
    | DoPurge(desired: set<int>)
    | DoStart(at: int)
    | LoopPark(d: Option<int>)
    | LoopWake
    | LoopTimer(now: int)
    | LoopFire(order: seq<E>)
    | LoopDispatch
    | LoopAgain
    | LoopExit
    | TaskEnd(e: E)
    | TaskDone
    | CancelParent
    | StopCall
    | StopJoin
    | StopReturn

  ghost predicate Enabled<E>(s: State<E>, step: Step<E>) {
    match step
    case DoRegister(e, cfg, now, at) => e !in s.core.entries && Lawful(cfg.schedule) && cfg.lastRun >= 0 && now > 0
    case LoopPark(d) => s.loop.Ready? && IsEarliest(s.core, d)
    case LoopWake => s.loop.Parked? && s.core.token
    case LoopTimer(now) => s.loop.Parked? && s.loop.deadline.Some? && now > 0
    case LoopFire(order) => s.loop.Firing? && Lists(order, DueIdle(s.core, s.loop.now))
    case LoopDispatch => s.loop.Dispatching? && s.loop.toDispatch != []
    case LoopAgain => s.loop.Dispatching? && s.loop.toDispatch == []
    case LoopExit => s.loop.Parked? && (s.core.stopped || s.cancelled)
    case TaskEnd(e) => e in s.core.tasks && e in s.core.entries
    case TaskDone => s.finishing > 0 && s.core.wg > 0
    case StopCall => s.core.running && !s.core.stopped
    case StopJoin => s.stop.AwaitLoop? && s.loop.Exited?
    case StopReturn => s.stop.AwaitTasks? && s.core.wg == 0
    case _ => true
  }

  ghost function Next<E>(s: State<E>, step: Step<E>): State<E>
    requires Enabled(s, step)
  {
    match step
    case DoRegister(e, cfg, now, at) => s.(core := Register(s.core, e, cfg, now, at))
    case DoUnregister(id) => s.(core := Unregister(s.core, id))
    case DoPurge(desired) => s.(core := Purge(s.core, desired))
    case DoStart(at) =>
      s.(core := Begin(s.core, at), loop := if s.core.running || s.core.stopped then s.loop else Ready)
    case LoopPark(d) => s.(loop := Parked(d))
    case LoopWake => s.(core := s.core.(token := false), loop := Ready)
    case LoopTimer(now) => s.(loop := Firing(now))
    case LoopFire(order) => s.(core := Fire(s.core, s.loop.now), loop := Dispatching(order))
    case LoopDispatch => s.(core := Launch(s.core, s.loop.toDispatch[0]), loop := Dispatching(s.loop.toDispatch[1..]))
    case LoopAgain => s.(loop := Ready)
    case LoopExit => s.(loop := Exited)
    case TaskEnd(e) => s.(core := Finish(s.core, e), finishing := s.finishing + 1)
    case TaskDone => s.(core := s.core.(wg := s.core.wg - 1), finishing := s.finishing - 1)
    case CancelParent => s.(cancelled := true)
    case StopCall => s.(core := Halt(s.core), stop := AwaitLoop)
    case StopJoin => s.(stop := AwaitTasks)
    case StopReturn => s.(stop := Returned)
  }

  ghost predicate Initial<E>(s: State<E>) {
    s == State(Core(map[], map[], false, false, false, multiset{}, 0, 0), NotStarted, NoStop, 0, false)
  }

  /** `ss` are the states of a run taking `steps`. */
  ghost predicate IsBehavior<E>(ss: seq<State<E>>, steps: seq<Step<E>>) {
    && |ss| == |steps| + 1
    && forall i :: 0 <= i < |steps| ==> Enabled(ss[i], steps[i]) && ss[i + 1] == Next(ss[i], steps[i])
  }

  // ---------------------------------------------------------------- the invariant

  ghost function ToDispatch<E>(s: State<E>): seq<E> {
    if s.loop.Dispatching? then s.loop.toDispatch else []
  }

  /** Jobs are entries, filed under their own pool; schedules are lawful. */
  ghost predicate InvJobs<E>(s: State<E>) {
    && (forall id :: id in s.core.jobs ==>
                       s.core.jobs[id] in s.core.entries && s.core.entries[s.core.jobs[id]].poolId == id)
    && (forall e :: e in s.core.entries ==> Lawful(s.core.entries[e].schedule))
  }

  /** An entry's flag is set exactly while it has one task in flight or is waiting to be launched. */
  ghost predicate InvFlight<E>(s: State<E>) {
    && (forall e :: e in s.core.entries ==>
                      s.core.tasks[e] + (if e in ToDispatch(s) then 1 else 0) ==
                          (if s.core.entries[e].running then 1 else 0))
    && (forall e :: e in s.core.tasks ==> e in s.core.entries)
    && (forall e :: e in ToDispatch(s) ==> e in s.core.entries)
    && (forall i, j :: 0 <= i < j < |ToDispatch(s)| ==> ToDispatch(s)[i] != ToDispatch(s)[j])
    && s.core.wg == |s.core.tasks| + s.finishing
  }

  /** A parked loop has the right deadline or a wakeup waiting for it. */
  ghost predicate InvPark<E>(s: State<E>) {
    s.loop.Parked? ==> s.core.token || IsEarliest(s.core, s.loop.deadline)
  }

  ghost predicate InvPhase<E>(s: State<E>) {
    && (!s.core.running && !s.core.stopped ==> s.loop.NotStarted? && s.core.tasks == multiset{})
    && (s.core.running ==> !s.core.stopped)
    && (s.loop.NotStarted? ==> !s.core.running && !s.core.stopped)
    && (s.core.stopped <==> !s.stop.NoStop?)
    && (s.stop.AwaitTasks? || s.stop.Returned? ==> s.loop.Exited?)
    && (s.stop.Returned? ==> s.core.wg == 0)
    && (s.loop.Firing? ==> s.loop.now > 0)
  }

  /** Timer dispatches of one entry are apart by a schedule point, and its next run is beyond the point
      after the last one. */
  ghost predicate FiresApart(entry: Entry) {
    && (forall i :: 0 <= i < |entry.fires| ==> entry.fires[i] > 0)
    && (forall i :: 0 <= i < |entry.fires| - 1 ==> SpacedBy(entry.schedule, entry.fires[i], entry.fires[i + 1]))
    && (entry.fires != [] && entry.nextRun != 0 ==>
          SpacedBy(entry.schedule, entry.fires[|entry.fires| - 1], entry.nextRun))
  }

  ghost predicate SpacedBy(sch: Schedule, t1: int, t2: int) {
    t1 < sch.next(t1) <= t2
  }

  ghost predicate InvFires<E>(s: State<E>) {
    forall e :: e in s.core.entries ==> FiresApart(s.core.entries[e])
  }

  ghost predicate Inv<E>(s: State<E>) {
    InvJobs(s) && InvFlight(s) && InvPark(s) && InvPhase(s) && InvFires(s)
  }

  lemma InitInv<E>(s: State<E>)
    requires Initial(s)
    ensures Inv(s)
  {
  }

  // ---------------------------------------------------------------- preservation, part by part

  lemma SameEarliest<E>(c: Core<E>, d: Core<E>, m: Option<int>)
    requires c.jobs == d.jobs && IsEarliest(c, m)
    requires forall id :: id in c.jobs ==> NextRun(c, id) == NextRun(d, id)
    ensures IsEarliest(d, m)
  {
  }

  /** A step that leaves the loop parked either leaves a wakeup or leaves the jobs alone. */
  lemma QuietWhileParked<E>(s: State<E>, step: Step<E>)
    requires Enabled(s, step) && s.loop.Parked? && Next(s, step).loop.Parked? && !Next(s, step).core.token
    requires InvPhase(s)
    ensures !s.core.token && Next(s, step).core.jobs == s.core.jobs && Next(s, step).loop == s.loop && !step.LoopFire?
  {
    hide IsEarliest, Lawful, Lists, Due, Pending, PendingIdle, FirstRun, Missed;
  }

  lemma StepPark<E>(s: State<E>, step: Step<E>)
    requires Inv(s) && Enabled(s, step)
    ensures InvPark(Next(s, step))
  {
    var t := Next(s, step);
    if t.loop.Parked? && !t.core.token {
      if s.loop.Parked? {
        QuietWhileParked(s, step);
        Frame(s, step);
        hide InvFlight, InvFires, IsEarliest, Lawful, Next, Enabled, Due;
        forall id | id in s.core.jobs ensures NextRun(s.core, id) == NextRun(t.core, id) {
          assert Kept(s, t, step, s.core.jobs[id]);
        }
        SameEarliest(s.core, t.core, s.loop.deadline);
      } else {
        ParkingChecks(s, step);
      }
    }
  }

  lemma ParkingChecks<E>(s: State<E>, step: Step<E>)
    requires Enabled(s, step) && !s.loop.Parked? && Next(s, step).loop.Parked?
    ensures IsEarliest(Next(s, step).core, Next(s, step).loop.deadline)
  {
    hide IsEarliest, Lawful, Lists, Due, Pending, PendingIdle, FirstRun, Missed;
  }

  /** How one step treats an entry that existed: pool and schedule never change; next run and history
      change only in fireDueJobs, for entries that are due. */
  ghost predicate Kept<E>(s: State<E>, t: State<E>, step: Step<E>, e: E)
    requires e in s.core.entries
  {
    && e in t.core.entries
    && t.core.entries[e].poolId == s.core.entries[e].poolId
    && t.core.entries[e].schedule == s.core.entries[e].schedule
    && (if step.LoopFire? && s.loop.Firing? && e in Due(s.core, s.loop.now)
        then t.core.entries[e] == Fired(s.core.entries[e], s.loop.now)
        else
          && t.core.entries[e].nextRun == s.core.entries[e].nextRun
          && t.core.entries[e].fires == s.core.entries[e].fires)
  }

  /** Entries that did not exist before. */
  ghost predicate Added<E>(s: State<E>, t: State<E>, step: Step<E>, e: E)
    requires e in t.core.entries
  {
    step.DoRegister? && !s.core.stopped && e == step.e && t.core.jobs == s.core.jobs[step.cfg.poolId := e] &&
    t.core.entries[e].poolId == step.cfg.poolId && t.core.entries[e].schedule == step.cfg.schedule &&
    t.core.entries[e].fires == []
  }

  ghost predicate Framed<E>(s: State<E>, t: State<E>, step: Step<E>) {
    && (forall e :: e in s.core.entries ==> Kept(s, t, step, e))
    && (forall e :: e in t.core.entries && e !in s.core.entries ==> Added(s, t, step, e))
  }

  lemma Frame<E>(s: State<E>, step: Step<E>)
    requires Enabled(s, step)
    ensures Framed(s, Next(s, step), step)
  {
    if step.DoRegister? {
      FrameRegister(s, step);
    } else if step.DoStart? {
      FrameStart(s, step);
    } else if step.LoopFire? {
      hide Pending, IsDue, Lawful, IsEarliest;
    } else {
      hide Due, Fired, Pending, Lawful, IsEarliest, Lists, Begin, Register, Fire;
    }
  }

  lemma FrameRegister<E>(s: State<E>, step: Step<E>)
    requires Enabled(s, step) && step.DoRegister?
    ensures Framed(s, Next(s, step), step)
  {
    hide Due, Fired, Pending, Lawful, FirstRun, Missed, Begin, Fire;
  }

  lemma FrameStart<E>(s: State<E>, step: Step<E>)
    requires Enabled(s, step) && step.DoStart?
    ensures Framed(s, Next(s, step), step)
  {
    hide Due, Fired, Pending, Lawful, Register, Fire, PendingIdle;
  }

  lemma StepJobs<E>(s: State<E>, step: Step<E>)
    requires Inv(s) && Enabled(s, step)
    ensures InvJobs(Next(s, step))
  {
    hide InvFlight, InvFires, InvPhase, InvPark, IsEarliest, Lawful, Due, Fired;
    Frame(s, step);
    JobsShrinkOrGrow(s, step);
    hide Next, Enabled;
    var t := Next(s, step);
    forall e | e in t.core.entries ensures Lawful(t.core.entries[e].schedule) {
      if e !in s.core.entries {
        assert Added(s, t, step, e);
        LawfulConfig(s, step);
      } else {
        assert Kept(s, t, step, e);
      }
    }
    forall id | id in t.core.jobs
      ensures t.core.jobs[id] in t.core.entries && t.core.entries[t.core.jobs[id]].poolId == id {
      var e := t.core.jobs[id];
      if e in s.core.entries {
        assert Kept(s, t, step, e);
      }
    }
  }

  lemma LawfulConfig<E>(s: State<E>, step: Step<E>)
    requires Enabled(s, step) && step.DoRegister?
    ensures Lawful(step.cfg.schedule)
  {
  }

  lemma JobsShrinkOrGrow<E>(s: State<E>, step: Step<E>)
    requires Enabled(s, step)
    ensures forall id :: id in Next(s, step).core.jobs ==>
                           || (id in s.core.jobs && Next(s, step).core.jobs[id] == s.core.jobs[id])
                           || (step.DoRegister? && !s.core.stopped && id == step.cfg.poolId &&
                               step.e !in s.core.entries &&
                               Next(s, step).core.jobs[id] == step.e && step.e in Next(s, step).core.entries)
  {
    hide IsEarliest, Lawful, Lists, Due, Pending, PendingIdle, FirstRun, Missed;
  }

  lemma StepFires<E>(s: State<E>, step: Step<E>)
    requires Inv(s) && Enabled(s, step)
    ensures InvFires(Next(s, step))
  {
    hide InvFlight, InvPark, IsEarliest, FiresApart, Lawful, Due, Fired;
    Frame(s, step);
    hide Next, Enabled;
    var t := Next(s, step);
    forall e | e in t.core.entries ensures FiresApart(t.core.entries[e]) {
      if e !in s.core.entries {
        assert Added(s, t, step, e);
        NeverFired(t.core.entries[e]);
      } else {
        assert Kept(s, t, step, e);
        if step.LoopFire? && s.loop.Firing? && e in Due(s.core, s.loop.now) {
          DueMeansDue(s.core, s.loop.now, e);
          FiredApart(s.core.entries[e], s.loop.now);
        } else {
          FlagsIrrelevant(s.core.entries[e], t.core.entries[e]);
        }
      }
    }
  }

  lemma DueMeansDue<E>(c: Core<E>, now: int, e: E)
    requires e in Due(c, now)
    ensures e in c.entries && IsDue(c.entries[e], now)
  {
  }

  lemma FiredApart(entry: Entry, now: int)
    requires FiresApart(entry) && Lawful(entry.schedule) && IsDue(entry, now) && now > 0
    ensures FiresApart(Fired(entry, now))
  {
    var after := Fired(entry, now);
    var sch := entry.schedule;
    if entry.running && entry.fires != [] && after.nextRun != 0 {
      var last := entry.fires[|entry.fires| - 1];
      assert last < sch.next(last) <= entry.nextRun <= now < sch.next(now);
    }
  }

  lemma FlagsIrrelevant(a: Entry, b: Entry)
    requires FiresApart(a) && b.fires == a.fires && b.nextRun == a.nextRun && b.schedule == a.schedule
    ensures FiresApart(b)
  {
  }

  lemma NeverFired(a: Entry)
    requires a.fires == []
    ensures FiresApart(a)
  {
  }

  lemma StepPhase<E>(s: State<E>, step: Step<E>)
    requires Inv(s) && Enabled(s, step)
    ensures InvPhase(Next(s, step))
  {
    hide InvJobs, InvFires, InvPark, IsEarliest, Lawful, NewEntry, Fired, IsDue, Begun, Lists;
  }

  lemma StepFlight<E>(s: State<E>, step: Step<E>)
    requires Inv(s) && Enabled(s, step)
    ensures InvFlight(Next(s, step))
  {
    hide InvJobs, InvFires, InvPark, IsEarliest, Lawful;
    match step
    case DoRegister(_, _, _, _) => FlightRegister(s, step);
    case DoStart(_) => FlightStart(s, step);
    case LoopFire(_) => FlightFire(s, step);
    case LoopDispatch => FlightDispatch(s, step);
    case TaskEnd(e) => FlightEnd(s, step);
    case _ => FlightSame(s, step);
  }

  lemma FlightSame<E>(s: State<E>, step: Step<E>)
    requires InvFlight(s) && Enabled(s, step) && !step.DoRegister? && !step.DoStart?
    requires !step.LoopFire? && !step.LoopDispatch? && !step.TaskEnd?
    ensures InvFlight(Next(s, step))
  {
    hide IsEarliest;
    var t := Next(s, step);
    assert ToDispatch(t) == ToDispatch(s) && t.core.entries == s.core.entries && t.core.tasks == s.core.tasks;
    hide Next, Enabled, ToDispatch;
  }

  lemma FlightRegister<E>(s: State<E>, step: Step<E>)
    requires InvFlight(s) && Enabled(s, step) && step.DoRegister?
    ensures InvFlight(Next(s, step))
  {
    hide Lawful, Register;
    assert step.e !in s.core.tasks && step.e !in ToDispatch(s);
    RegisterEffect(s.core, step.e, step.cfg, step.now, step.at);
  }

  /** A new entry starts idle, or running with one task. */
  lemma RegisterEffect<E>(c: Core<E>, e: E, cfg: JobConfig, now: int, at: int)
    requires e !in c.entries
    ensures var d := Register(c, e, cfg, now, at);
            if c.stopped then d == c
            else
              && d.entries.Keys == c.entries.Keys + {e} && (forall x :: x in c.entries ==> d.entries[x] == c.entries[x])
              && (d.entries[e].running ==> d.tasks == c.tasks + multiset{e} && d.wg == c.wg + 1)
              && (!d.entries[e].running ==> d.tasks == c.tasks && d.wg == c.wg)
  {
    hide FirstRun, Missed;
  }

  lemma FlightStart<E>(s: State<E>, step: Step<E>)
    requires InvFlight(s) && InvPhase(s) && Enabled(s, step) && step.DoStart?
    ensures InvFlight(Next(s, step))
  {
    hide Begin;
    if s.core.running || s.core.stopped {
      BeginNothing(s.core, step.at);
    } else {
      assert s.core.tasks == multiset{} && ToDispatch(s) == [] && s.core.wg == s.finishing;
      assert forall e :: e in s.core.entries ==> !s.core.entries[e].running;
      BeginEffect(s.core, step.at);
      assert Next(s, step) == s.(core := Begin(s.core, step.at), loop := Ready);
      hide Next, Enabled, InvPhase;
    }
  }

  lemma BeginNothing<E>(c: Core<E>, at: int)
    requires c.running || c.stopped
    ensures Begin(c, at) == c
  {
  }

  /** From all idle and no task, exactly the dispatched entries run, with one task each. */
  lemma BeginEffect<E>(c: Core<E>, at: int)
    requires !c.running && !c.stopped && c.tasks == multiset{} && forall e :: e in c.entries ==> !c.entries[e].running
    ensures var d := Begin(c, at);
            && d.entries.Keys == c.entries.Keys && d.wg == c.wg + |d.tasks|
            && (forall e :: e in d.entries ==> d.tasks[e] == if d.entries[e].running then 1 else 0)
            && (forall e :: e in d.tasks ==> e in d.entries)
  {
    assert PendingIdle(c) == Pending(c);
    assert forall e :: e in Pending(c) ==> e in c.entries;
    hide Pending, PendingIdle;
    assert Begin(c, at).tasks == multiset(PendingIdle(c));
  }

  lemma FlightFire<E>(s: State<E>, step: Step<E>)
    requires InvFlight(s) && Enabled(s, step) && step.LoopFire?
    ensures InvFlight(Next(s, step))
  {
    hide IsDue;
  }

  lemma FlightDispatch<E>(s: State<E>, step: Step<E>)
    requires InvFlight(s) && Enabled(s, step) && step.LoopDispatch?
    ensures InvFlight(Next(s, step))
  {
    var list := s.loop.toDispatch;
    assert list == ToDispatch(s) && list == [list[0]] + list[1..];
    assert list[0] in list;
    forall i | 1 <= i < |list| ensures list[i] != list[0] {
      assert ToDispatch(s)[0] != ToDispatch(s)[i];
    }
    assert list[0] !in list[1..];
  }

  lemma FlightEnd<E>(s: State<E>, step: Step<E>)
    requires InvFlight(s) && Enabled(s, step) && step.TaskEnd?
    ensures InvFlight(Next(s, step))
  {
    assert s.core.tasks[step.e] == 1;
  }

  lemma StepInv<E>(s: State<E>, step: Step<E>)
    requires Inv(s) && Enabled(s, step)
    ensures Inv(Next(s, step))
  {
    StepJobs(s, step);
    StepFlight(s, step);
    StepPark(s, step);
    StepPhase(s, step);
    StepFires(s, step);
    hide *;
    assert Inv(Next(s, step)) by { InvParts(Next(s, step)); }
  }

  lemma InvParts<E>(s: State<E>)
    requires InvJobs(s) && InvFlight(s) && InvPark(s) && InvPhase(s) && InvFires(s)
    ensures Inv(s)
  {
  }

  lemma BehaviorLength<E>(ss: seq<State<E>>, steps: seq<Step<E>>)
    requires IsBehavior(ss, steps)
    ensures |ss| == |steps| + 1
  {
  }

  lemma BehaviorStep<E>(ss: seq<State<E>>, steps: seq<Step<E>>, n: nat)
    requires IsBehavior(ss, steps) && n < |steps|
    ensures |ss| == |steps| + 1 && Enabled(ss[n], steps[n]) && ss[n + 1] == Next(ss[n], steps[n])
  {
    hide Enabled, Next;
  }

  lemma {:induction false} InvHolds<E>(ss: seq<State<E>>, steps: seq<Step<E>>, n: nat)
    requires IsBehavior(ss, steps) && Inv(ss[0]) && n <= |steps|
    ensures Inv(ss[n])
  {
    hide *;
    BehaviorLength(ss, steps);
    if n > 0 {
      InvHolds(ss, steps, n - 1);
      BehaviorStep(ss, steps, n - 1);
      StepInv(ss[n - 1], steps[n - 1]);
    }
  }

  // ---------------------------------------------------------------- the theorems

  /** In every interleaving, a parked loop sleeps towards the least next run of the current jobs, or a
      wakeup is waiting for it. */
  lemma ParkedDeadlineIsRight<E>(ss: seq<State<E>>, steps: seq<Step<E>>, n: nat)
    requires IsBehavior(ss, steps) && Initial(ss[0]) && n <= |steps|
    requires ss[n].loop.Parked?
    ensures ss[n].core.token || IsEarliest(ss[n].core, ss[n].loop.deadline)
  {
    InitInv(ss[0]);
    InvHolds(ss, steps, n);
  }

  /** So no job is due while the loop sleeps with no wakeup pending and its deadline still ahead. */
  lemma NothingDueWhileAsleep<E>(ss: seq<State<E>>, steps: seq<Step<E>>, n: nat, clock: int, id: int)
    requires IsBehavior(ss, steps) && Initial(ss[0]) && n <= |steps|
    requires ss[n].loop.Parked? && !ss[n].core.token
    requires ss[n].loop.deadline.Some? ==> clock < ss[n].loop.deadline.value
    requires id in ss[n].core.jobs
    ensures ss[n].core.jobs[id] in ss[n].core.entries && !IsDue(ss[n].core.entries[ss[n].core.jobs[id]], clock)
  {
    InitInv(ss[0]);
    InvHolds(ss, steps, n);
    ParkedDeadlineIsRight(ss, steps, n);
    assert NextRun(ss[n].core, id) == ss[n].core.entries[ss[n].core.jobs[id]].nextRun;
  }

  /** Single flight, for every entry ever created: at most one task, and exactly one if and only if
      the flag is set and the entry is not still waiting to be launched. */
  lemma SingleFlight<E>(ss: seq<State<E>>, steps: seq<Step<E>>, n: nat, e: E)
    requires IsBehavior(ss, steps) && Initial(ss[0]) && n <= |steps|
    requires e in ss[n].core.entries
    ensures ss[n].core.tasks[e] <= 1
    ensures ss[n].core.tasks[e] == 1 <==> ss[n].core.entries[e].running && e !in ToDispatch(ss[n])
  {
    InitInv(ss[0]);
    InvHolds(ss, steps, n);
  }

  /** Two tasks of one pool can overlap, but never both for the pool's current entry: one of them is
      an entry that was replaced or unregistered. */
  lemma OverlapNeedsReplacement<E>(ss: seq<State<E>>, steps: seq<Step<E>>, n: nat, a: E, b: E)
    requires IsBehavior(ss, steps) && Initial(ss[0]) && n <= |steps|
    requires a in ss[n].core.tasks && b in ss[n].core.tasks - multiset{a}
    ensures a != b && a in ss[n].core.entries && b in ss[n].core.entries
    ensures a in Current(ss[n].core) && b in Current(ss[n].core) ==>
              ss[n].core.entries[a].poolId != ss[n].core.entries[b].poolId
  {
    InitInv(ss[0]);
    InvHolds(ss, steps, n);
    SingleFlight(ss, steps, n, a);
  }

  // ---------------------------------------------------------------- single flight per pool

  /** At most one entry of each pool has its running flag set. */
  ghost predicate OneEach<E>(c: Core<E>) {
    forall a, b ::
      (&& a in c.entries && b in c.entries && c.entries[a].running && c.entries[b].running
       && c.entries[a].poolId == c.entries[b].poolId) ==> a == b
  }

  /** A running entry of pool `id`. */
  ghost predicate Busy<E>(c: Core<E>, id: int) {
    exists a :: a in c.entries && c.entries[a].running && c.entries[a].poolId == id
  }

  /** The steps that set a second running flag for some pool: registering a busy pool whose fire was missed,
      under the immediate policy, with the scheduler live; or a timer fire of a due job while an entry it
      replaced still runs. */
  ghost predicate Collides<E>(s: State<E>, step: Step<E>) {
    match step
    case DoRegister(e, cfg, now, at) =>
      !s.core.stopped && s.core.running && cfg.policy == RunImmediately && Missed(cfg, now) && Busy(s.core, cfg.poolId)
    case LoopFire(_) =>
      s.loop.Firing? &&
      exists e :: e in DueIdle(s.core, s.loop.now) && Busy(s.core, s.core.entries[e].poolId)
    case _ => false
  }

  /** Exactly which steps end single flight per pool. */
  lemma CollisionsExactly<E>(s: State<E>, step: Step<E>)
    requires Inv(s) && Enabled(s, step) && OneEach(s.core)
    ensures OneEach(Next(s, step).core) <==> !Collides(s, step)
  {
    hide InvFires, InvPark, IsEarliest, Lawful, OneEach, Busy, Missed, Lists, DueIdle;
    match step
    case DoRegister(e, cfg, now, at) => RegisterCollision(s.core, e, cfg, now, at);
    case DoStart(at) =>
      hide Begin;
      if s.core.running || s.core.stopped {
        BeginNothing(s.core, at);
      } else {
        NobodyRuns(s);
        StartKeepsOneEach(s, at);
      }
    case LoopFire(order) => FireCollision(s);
    case TaskEnd(e) => FinishKeepsOneEach(s.core, e);
    case _ =>
      OtherSteps(s, step);
      SameFlags(s.core, Next(s, step).core);
  }

  lemma SameFlags<E>(c: Core<E>, d: Core<E>)
    requires c.entries == d.entries
    ensures OneEach(c) <==> OneEach(d)
  {
  }

  lemma FinishKeepsOneEach<E>(c: Core<E>, e: E)
    requires OneEach(c) && e in c.entries
    ensures OneEach(Finish(c, e))
  {
  }

  lemma NobodyRuns<E>(s: State<E>)
    requires InvFlight(s) && InvPhase(s) && !s.core.running && !s.core.stopped
    ensures forall e :: e in s.core.entries ==> !s.core.entries[e].running
  {
  }

  lemma StartKeepsOneEach<E>(s: State<E>, at: int)
    requires InvJobs(s) && forall e :: e in s.core.entries ==> !s.core.entries[e].running
    ensures OneEach(Begin(s.core, at))
  {
    var c, d := s.core, Begin(s.core, at);
    forall a, b | a in d.entries && b in d.entries && d.entries[a].running && d.entries[b].running
                  && d.entries[a].poolId == d.entries[b].poolId
      ensures a == b
    {
      assert a in Current(c) && b in Current(c);
      CurrentByPool(s, a);
      CurrentByPool(s, b);
    }
  }

  lemma CurrentByPool<E>(s: State<E>, e: E)
    requires InvJobs(s) && e in Current(s.core)
    ensures e in s.core.entries && s.core.entries[e].poolId in s.core.jobs
    ensures s.core.jobs[s.core.entries[e].poolId] == e
  {
  }

  lemma RegisterCollision<E>(c: Core<E>, e: E, cfg: JobConfig, now: int, at: int)
    requires e !in c.entries && OneEach(c)
    ensures var d := Register(c, e, cfg, now, at);
            OneEach(d) <==>
                !(!c.stopped && c.running && cfg.policy == RunImmediately && Missed(cfg, now) && Busy(c, cfg.poolId))
  {
    var d := Register(c, e, cfg, now, at);
    RegisterEffect(c, e, cfg, now, at);
    if !c.stopped {
      RegisterFlag(c, e, cfg, now, at);
    }
    hide Register, Missed;
    if !c.stopped && d.entries[e].running && Busy(c, cfg.poolId) {
      var a :| a in c.entries && c.entries[a].running && c.entries[a].poolId == cfg.poolId;
      assert a in d.entries && d.entries[a].running && a != e;
    }
  }

  lemma RegisterFlag<E>(c: Core<E>, e: E, cfg: JobConfig, now: int, at: int)
    requires e !in c.entries && !c.stopped
    ensures var d := Register(c, e, cfg, now, at);
            && e in d.entries && d.entries[e].poolId == cfg.poolId
            && d.jobs == c.jobs[cfg.poolId := e]
            && (d.entries[e].running <==> c.running && cfg.policy == RunImmediately && Missed(cfg, now))
  {
    hide FirstRun, Missed;
  }

  /** What a fire does to the flags: the due idle current entries start. */
  lemma FireFlags<E>(c: Core<E>, now: int)
    ensures var d := Fire(c, now);
            && d.entries.Keys == c.entries.Keys && d.jobs == c.jobs
            && forall e :: e in c.entries ==>
                             && d.entries[e].poolId == c.entries[e].poolId
                             && (d.entries[e].running <==> c.entries[e].running || e in DueIdle(c, now))
  {
    hide IsDue;
  }

  lemma FireCollision<E>(s: State<E>)
    requires InvJobs(s) && s.loop.Firing? && OneEach(s.core)
    ensures OneEach(Fire(s.core, s.loop.now)) <==>
            !exists e :: e in DueIdle(s.core, s.loop.now) && Busy(s.core, s.core.entries[e].poolId)
  {
    var c, now := s.core, s.loop.now;
    FireFlags(c, now);
    hide Fire, InvJobs;
    var d := Fire(c, now);
    if e :| e in DueIdle(c, now) && Busy(c, c.entries[e].poolId) {
      var a :| a in c.entries && c.entries[a].running && c.entries[a].poolId == c.entries[e].poolId;
      assert a != e && d.entries[a].running && d.entries[e].running;
    } else {
      forall a, b | a in d.entries && b in d.entries && d.entries[a].running && d.entries[b].running
                    && d.entries[a].poolId == d.entries[b].poolId
        ensures a == b
      {
        FirePair(s, a, b);
      }
    }
  }

  lemma FirePair<E>(s: State<E>, a: E, b: E)
    requires s.loop.Firing? && InvJobs(s) && OneEach(s.core) && a in s.core.entries && b in s.core.entries
    requires forall e :: e in DueIdle(s.core, s.loop.now) ==> !Busy(s.core, s.core.entries[e].poolId)
    requires s.core.entries[a].poolId == s.core.entries[b].poolId
    requires s.core.entries[a].running || a in DueIdle(s.core, s.loop.now)
    requires s.core.entries[b].running || b in DueIdle(s.core, s.loop.now)
    ensures a == b
  {
    var c, now := s.core, s.loop.now;
    if a in DueIdle(c, now) && b in DueIdle(c, now) {
      CurrentByPool(s, a);
      CurrentByPool(s, b);
    }
  }

  /** A behaviour has single flight per pool throughout exactly if none of its steps collides. */
  lemma {:induction false} SingleFlightExactly<E>(ss: seq<State<E>>, steps: seq<Step<E>>)
    requires IsBehavior(ss, steps) && Initial(ss[0])
    ensures (forall n :: 0 <= n <= |steps| ==> OneEach(ss[n].core)) <==>
            (forall i :: 0 <= i < |steps| ==> !Collides(ss[i], steps[i]))
  {
    BehaviorLength(ss, steps);
    InitInv(ss[0]);
    hide OneEach, Collides, Initial, Inv;
    if forall n :: 0 <= n <= |steps| ==> OneEach(ss[n].core) {
      forall i | 0 <= i < |steps| ensures !Collides(ss[i], steps[i]) {
        InvHolds(ss, steps, i);
        BehaviorStep(ss, steps, i);
        CollisionsExactly(ss[i], steps[i]);
        assert OneEach(ss[i + 1].core);
      }
    }
    if forall i :: 0 <= i < |steps| ==> !Collides(ss[i], steps[i]) {
      forall n | 0 <= n <= |steps| ensures OneEach(ss[n].core) {
        OneEachUpTo(ss, steps, n);
      }
    }
  }

  lemma {:induction false} OneEachUpTo<E>(ss: seq<State<E>>, steps: seq<Step<E>>, n: nat)
    requires IsBehavior(ss, steps) && Initial(ss[0]) && n <= |steps|
    requires forall i :: 0 <= i < |steps| ==> !Collides(ss[i], steps[i])
    ensures OneEach(ss[n].core)
  {
    if n == 0 {
      NothingYet(ss[0]);
    } else {
      hide *;
      BehaviorLength(ss, steps);
      OneEachUpTo(ss, steps, n - 1);
      InitInv(ss[0]);
      InvHolds(ss, steps, n - 1);
      BehaviorStep(ss, steps, n - 1);
      CollisionsExactly(ss[n - 1], steps[n - 1]);
    }
  }

  /** A task of pool `id` is in flight. */
  ghost predicate InFlight<E>(c: Core<E>, id: int) {
    exists a :: a in c.tasks && a in c.entries && c.entries[a].poolId == id
  }

  /** Entry `e` has a task in flight beside a task of another entry of its pool. */
  ghost predicate Overlaps<E>(c: Core<E>, e: E) {
    && e in c.tasks && e in c.entries
    && exists a :: a in c.tasks && a != e && a in c.entries && c.entries[a].poolId == c.entries[e].poolId
  }

  /** Exactly which registrations start a second task of their pool at once. */
  lemma SecondTaskAtOnce<E>(s: State<E>, step: Step<E>)
    requires Inv(s) && Enabled(s, step) && step.DoRegister?
    ensures var c, cfg := s.core, step.cfg;
            Overlaps(Next(s, step).core, step.e) <==>
            (&& !c.stopped && c.running && cfg.policy == RunImmediately && Missed(cfg, step.now)
             && InFlight(c, cfg.poolId))
  {
    hide InvFires, InvPark, InvPhase, InvJobs, Missed, Lawful, Register;
    var c, d := s.core, Next(s, step).core;
    assert step.e !in c.tasks;
    RegisterEffect(c, step.e, step.cfg, step.now, step.at);
    if !c.stopped {
      RegisterFlag(c, step.e, step.cfg, step.now, step.at);
      if d.entries[step.e].running && InFlight(c, step.cfg.poolId) {
        var a :| a in c.tasks && a in c.entries && c.entries[a].poolId == step.cfg.poolId;
        assert a in d.tasks && a != step.e;
      }
    }
  }

  /** Only the job of a pool may be running, if the pool has a job. */
  ghost predicate OnlyJobsRun<E>(c: Core<E>) {
    forall e :: e in c.entries && c.entries[e].running && c.entries[e].poolId in c.jobs ==>
                  c.jobs[c.entries[e].poolId] == e
  }

  /** A registration that finds no entry of its pool running, current or replaced. */
  ghost predicate RegistersIdle<E>(s: State<E>, step: Step<E>) {
    step.DoRegister? && !s.core.stopped ==> !Busy(s.core, step.cfg.poolId)
  }

  lemma StepOnlyJobs<E>(s: State<E>, step: Step<E>)
    requires Inv(s) && Enabled(s, step) && OneEach(s.core) && OnlyJobsRun(s.core) && RegistersIdle(s, step)
    ensures OneEach(Next(s, step).core) && OnlyJobsRun(Next(s, step).core)
  {
    hide OneEach, OnlyJobsRun, Collides, RegistersIdle, Inv, Enabled, Next;
    NoCollision(s, step);
    CollisionsExactly(s, step);
    StepRunsJobs(s, step);
  }

  lemma StepRunsJobs<E>(s: State<E>, step: Step<E>)
    requires Inv(s) && Enabled(s, step) && OnlyJobsRun(s.core) && RegistersIdle(s, step)
    ensures OnlyJobsRun(Next(s, step).core)
  {
    hide InvFires, InvPark, InvFlight, InvJobs, InvPhase, IsEarliest, Lawful, OnlyJobsRun, Missed, Lists;
    hide DueIdle, Collides, Register, Begin, Fire, Busy;
    match step
    case DoRegister(e, cfg, now, at) => RegisterRunsJobs(s.core, e, cfg, now, at);
    case DoStart(at) =>
      if s.core.running || s.core.stopped {
        BeginNothing(s.core, at);
      } else {
        NobodyRuns(s);
        StartRunsJobs(s, at);
      }
    case LoopFire(order) => FireRunsJobs(s);
    case TaskEnd(e) => FinishRunsJobs(s.core, e);
    case _ =>
      OtherSteps(s, step);
      hide Next, Enabled;
      FewerJobsRun(s.core, Next(s, step).core);
  }

  lemma OtherSteps<E>(s: State<E>, step: Step<E>)
    requires Enabled(s, step) && !step.DoRegister? && !step.DoStart? && !step.LoopFire? && !step.TaskEnd?
    ensures var c, d := s.core, Next(s, step).core;
            d.entries == c.entries && forall id :: id in d.jobs ==> id in c.jobs && d.jobs[id] == c.jobs[id]
  {
    hide Lists, DueIdle, IsEarliest, Lawful;
  }

  lemma RegisterRunsJobs<E>(c: Core<E>, e: E, cfg: JobConfig, now: int, at: int)
    requires e !in c.entries && OnlyJobsRun(c) && (c.stopped || !Busy(c, cfg.poolId))
    ensures OnlyJobsRun(Register(c, e, cfg, now, at))
  {
    RegisterEffect(c, e, cfg, now, at);
    if !c.stopped {
      RegisterFlag(c, e, cfg, now, at);
    }
    hide Register;
  }

  lemma FinishRunsJobs<E>(c: Core<E>, e: E)
    requires e in c.entries && OnlyJobsRun(c)
    ensures OnlyJobsRun(Finish(c, e))
  {
  }

  lemma FewerJobsRun<E>(c: Core<E>, d: Core<E>)
    requires d.entries == c.entries && OnlyJobsRun(c)
    requires forall id :: id in d.jobs ==> id in c.jobs && d.jobs[id] == c.jobs[id]
    ensures OnlyJobsRun(d)
  {
  }

  lemma StartRunsJobs<E>(s: State<E>, at: int)
    requires InvJobs(s) && forall e :: e in s.core.entries ==> !s.core.entries[e].running
    ensures OnlyJobsRun(Begin(s.core, at))
  {
    var c, d := s.core, Begin(s.core, at);
    forall e | e in d.entries && d.entries[e].running && d.entries[e].poolId in d.jobs
      ensures d.jobs[d.entries[e].poolId] == e
    {
      assert e in Current(c);
      CurrentByPool(s, e);
    }
  }

  lemma FireRunsJobs<E>(s: State<E>)
    requires InvJobs(s) && s.loop.Firing? && OnlyJobsRun(s.core)
    ensures OnlyJobsRun(Fire(s.core, s.loop.now))
  {
    var c, now := s.core, s.loop.now;
    FireFlags(c, now);
    hide Fire, InvJobs;
    var d := Fire(c, now);
    forall e | e in d.entries && d.entries[e].running && d.entries[e].poolId in d.jobs
      ensures d.jobs[d.entries[e].poolId] == e
    {
      if e in DueIdle(c, now) {
        CurrentByPool(s, e);
      }
    }
  }

  lemma NoCollision<E>(s: State<E>, step: Step<E>)
    requires Inv(s) && Enabled(s, step) && OnlyJobsRun(s.core) && RegistersIdle(s, step)
    ensures !Collides(s, step)
  {
    hide InvFires, InvPark, InvFlight, InvPhase, IsEarliest, Lawful, Missed, Lists;
    if step.LoopFire? {
      forall e | e in DueIdle(s.core, s.loop.now) ensures !Busy(s.core, s.core.entries[e].poolId) {
        CurrentByPool(s, e);
      }
    }
  }

  lemma {:induction false} OnlyJobsRunThroughout<E>(ss: seq<State<E>>, steps: seq<Step<E>>, n: nat)
    requires IsBehavior(ss, steps) && Initial(ss[0]) && n <= |steps|
    requires forall i :: 0 <= i < |steps| ==> RegistersIdle(ss[i], steps[i])
    ensures OneEach(ss[n].core) && OnlyJobsRun(ss[n].core)
  {
    if n == 0 {
      NothingYet(ss[0]);
    } else {
      hide *;
      BehaviorLength(ss, steps);
      OnlyJobsRunThroughout(ss, steps, n - 1);
      InitInv(ss[0]);
      InvHolds(ss, steps, n - 1);
      BehaviorStep(ss, steps, n - 1);
      StepOnlyJobs(ss[n - 1], steps[n - 1]);
    }
  }

  lemma NothingYet<E>(s: State<E>)
    requires Initial(s)
    ensures OneEach(s.core) && OnlyJobsRun(s.core)
  {
  }

  /** Single flight per pool, for callers that register a pool only while no task of it runs: in every
      interleaving, two tasks in flight are of different pools. */
  lemma PoolSingleFlight<E>(ss: seq<State<E>>, steps: seq<Step<E>>, n: nat, a: E, b: E)
    requires IsBehavior(ss, steps) && Initial(ss[0]) && n <= |steps|
    requires forall i :: 0 <= i < |steps| ==> RegistersIdle(ss[i], steps[i])
    requires a in ss[n].core.tasks && b in ss[n].core.tasks - multiset{a}
    ensures a in ss[n].core.entries && b in ss[n].core.entries
    ensures ss[n].core.entries[a].poolId != ss[n].core.entries[b].poolId
  {
    OverlapNeedsReplacement(ss, steps, n, a, b);
    SingleFlight(ss, steps, n, a);
    SingleFlight(ss, steps, n, b);
    OnlyJobsRunThroughout(ss, steps, n);
  }

  /** What callers can see through the status calls, which show current jobs only: nobody replaces or drops
      a job that is running. */
  ghost predicate SparesRunning<E>(s: State<E>, step: Step<E>) {
    match step
    case DoRegister(e, cfg, now, at) => s.core.stopped || !JobRuns(s.core, cfg.poolId)
    case DoUnregister(id) => !JobRuns(s.core, id)
    case DoPurge(desired) => forall id :: id in s.core.jobs && id !in desired ==> !JobRuns(s.core, id)
    case _ => true
  }

  /** The current job of the pool is running. */
  ghost predicate JobRuns<E>(c: Core<E>, id: int) {
    id in c.jobs && c.jobs[id] in c.entries && c.entries[c.jobs[id]].running
  }

  /** Every running entry is its pool's current job. */
  ghost predicate AllRunningCurrent<E>(c: Core<E>) {
    forall e :: e in c.entries && c.entries[e].running ==>
                  c.entries[e].poolId in c.jobs && c.jobs[c.entries[e].poolId] == e
  }

  lemma RegisterStaysVisible<E>(c: Core<E>, e: E, cfg: JobConfig, now: int, at: int)
    requires e !in c.entries && AllRunningCurrent(c) && (c.stopped || !JobRuns(c, cfg.poolId))
    ensures AllRunningCurrent(Register(c, e, cfg, now, at))
  {
    RegisterEffect(c, e, cfg, now, at);
    if !c.stopped {
      RegisterFlag(c, e, cfg, now, at);
    }
    hide Register;
  }

  lemma StartStaysVisible<E>(s: State<E>, at: int)
    requires InvJobs(s) && forall e :: e in s.core.entries ==> !s.core.entries[e].running
    ensures AllRunningCurrent(Begin(s.core, at))
  {
    var c, d := s.core, Begin(s.core, at);
    forall e | e in d.entries && d.entries[e].running
      ensures d.entries[e].poolId in d.jobs && d.jobs[d.entries[e].poolId] == e
    {
      assert e in Current(c);
      CurrentByPool(s, e);
    }
  }

  lemma FireStaysVisible<E>(s: State<E>)
    requires InvJobs(s) && s.loop.Firing? && AllRunningCurrent(s.core)
    ensures AllRunningCurrent(Fire(s.core, s.loop.now))
  {
    var c, now := s.core, s.loop.now;
    FireFlags(c, now);
    hide Fire, InvJobs;
    var d := Fire(c, now);
    forall e | e in d.entries && d.entries[e].running
      ensures d.entries[e].poolId in d.jobs && d.jobs[d.entries[e].poolId] == e
    {
      if e in DueIdle(c, now) {
        CurrentByPool(s, e);
      }
    }
  }

  lemma FinishStaysVisible<E>(c: Core<E>, e: E)
    requires e in c.entries && AllRunningCurrent(c)
    ensures AllRunningCurrent(Finish(c, e))
  {
  }

  lemma DropStaysVisible<E>(c: Core<E>, d: Core<E>)
    requires d.entries == c.entries && AllRunningCurrent(c)
    requires forall id :: id in c.jobs && JobRuns(c, id) ==> id in d.jobs && d.jobs[id] == c.jobs[id]
    ensures AllRunningCurrent(d)
  {
    forall e | e in d.entries && d.entries[e].running
      ensures d.entries[e].poolId in d.jobs && d.jobs[d.entries[e].poolId] == e
    {
      assert JobRuns(c, c.entries[e].poolId);
    }
  }

  lemma StepStaysVisible<E>(s: State<E>, step: Step<E>)
    requires Inv(s) && Enabled(s, step) && AllRunningCurrent(s.core) && SparesRunning(s, step)
    ensures AllRunningCurrent(Next(s, step).core)
  {
    hide InvFires, InvPark, InvFlight, InvJobs, InvPhase, IsEarliest, Lawful, AllRunningCurrent, Missed, Lists;
    hide DueIdle, Register, Begin, Fire, JobRuns;
    match step
    case DoRegister(e, cfg, now, at) => RegisterStaysVisible(s.core, e, cfg, now, at);
    case DoStart(at) =>
      if s.core.running || s.core.stopped {
        BeginNothing(s.core, at);
      } else {
        NobodyRuns(s);
        StartStaysVisible(s, at);
      }
    case LoopFire(order) => FireStaysVisible(s);
    case TaskEnd(e) => FinishStaysVisible(s.core, e);
    case DoUnregister(id) => DropStaysVisible(s.core, Next(s, step).core);
    case DoPurge(desired) => DropStaysVisible(s.core, Next(s, step).core);
    case _ =>
      SameJobs(s, step);
      hide Next, Enabled;
      DropStaysVisible(s.core, Next(s, step).core);
  }

  lemma SameJobs<E>(s: State<E>, step: Step<E>)
    requires Enabled(s, step) && !step.DoRegister? && !step.DoStart? && !step.LoopFire? && !step.TaskEnd?
    requires !step.DoUnregister? && !step.DoPurge?
    ensures Next(s, step).core.entries == s.core.entries && Next(s, step).core.jobs == s.core.jobs
  {
    hide Lists, DueIdle, IsEarliest, Lawful;
  }

  lemma {:induction false} VisibleThroughout<E>(ss: seq<State<E>>, steps: seq<Step<E>>, n: nat)
    requires IsBehavior(ss, steps) && Initial(ss[0]) && n <= |steps|
    requires forall i :: 0 <= i < |steps| ==> SparesRunning(ss[i], steps[i])
    ensures AllRunningCurrent(ss[n].core)
  {
    if n > 0 {
      hide *;
      BehaviorLength(ss, steps);
      VisibleThroughout(ss, steps, n - 1);
      InitInv(ss[0]);
      InvHolds(ss, steps, n - 1);
      BehaviorStep(ss, steps, n - 1);
      StepStaysVisible(ss[n - 1], steps[n - 1]);
    }
  }

  /** Single flight per pool by what callers can see: if nobody replaces or drops a running job, then in every
      interleaving each task in flight belongs to its pool's current job, and two of them are of different
      pools. */
  lemma VisibleSingleFlight<E>(ss: seq<State<E>>, steps: seq<Step<E>>, n: nat, a: E, b: E)
    requires IsBehavior(ss, steps) && Initial(ss[0]) && n <= |steps|
    requires forall i :: 0 <= i < |steps| ==> SparesRunning(ss[i], steps[i])
    requires a in ss[n].core.tasks && b in ss[n].core.tasks - multiset{a}
    ensures a in Current(ss[n].core) && b in Current(ss[n].core)
    ensures a in ss[n].core.entries && b in ss[n].core.entries
    ensures ss[n].core.entries[a].poolId != ss[n].core.entries[b].poolId
  {
    OverlapNeedsReplacement(ss, steps, n, a, b);
    SingleFlight(ss, steps, n, a);
    SingleFlight(ss, steps, n, b);
    VisibleThroughout(ss, steps, n);
  }

  // ---------------------------------------------------------------- synchronising, interleaved

  /** The step takes the job of pool `id` away. */
  ghost predicate Drops<E>(step: Step<E>, id: int) {
    || (step.DoUnregister? && step.id == id)
    || (step.DoPurge? && id !in step.desired)
  }

  lemma JobSurvives<E>(s: State<E>, step: Step<E>, id: int)
    requires Enabled(s, step) && id in s.core.jobs && !Drops(step, id)
    ensures id in Next(s, step).core.jobs
  {
    hide Lists, DueIdle, IsEarliest, Lawful, NewEntry, Missed, Fired, Begun;
  }

  lemma {:induction false} JobStays<E>(ss: seq<State<E>>, steps: seq<Step<E>>, i: nat, n: nat, id: int)
    requires IsBehavior(ss, steps) && i <= n <= |steps| && id in ss[i].core.jobs
    requires forall k :: i <= k < n ==> !Drops(steps[k], id)
    ensures id in ss[n].core.jobs
    decreases n
  {
    hide Enabled, Next, Drops;
    if i < n {
      JobStays(ss, steps, i, n - 1, id);
      JobSurvives(ss[n - 1], steps[n - 1], id);
    }
  }

  /** SyncJobs and SyncFromDB among anything else that happens: right after the closing purge only desired
      pools have jobs; every desired pool registered before it, and not dropped since by someone else, has
      one; and the loop will look again. */
  lemma SyncInterleaved<E>(ss: seq<State<E>>, steps: seq<Step<E>>, n: nat, desired: set<int>)
    requires IsBehavior(ss, steps) && n < |steps| && steps[n] == DoPurge(desired)
    ensures ss[n + 1].core.jobs.Keys <= desired && ss[n + 1].core.token
    ensures forall i :: (0 <= i < n && steps[i].DoRegister? && !ss[i].core.stopped
                         && steps[i].cfg.poolId in desired
                         && (forall k :: i < k < n ==> !Drops(steps[k], steps[i].cfg.poolId))) ==>
                          steps[i].cfg.poolId in ss[n + 1].core.jobs
  {
    assert ss[n + 1] == Next(ss[n], steps[n]);
    forall i | 0 <= i < n && steps[i].DoRegister? && !ss[i].core.stopped && steps[i].cfg.poolId in desired
               && (forall k :: i < k < n ==> !Drops(steps[k], steps[i].cfg.poolId))
      ensures steps[i].cfg.poolId in ss[n + 1].core.jobs
    {
      var id := steps[i].cfg.poolId;
      RegisteredHasJob(ss[i], steps[i]);
      assert ss[i + 1] == Next(ss[i], steps[i]);
      JobStays(ss, steps, i + 1, n, id);
    }
  }

  lemma RegisteredHasJob<E>(s: State<E>, step: Step<E>)
    requires Enabled(s, step) && step.DoRegister? && !s.core.stopped
    ensures step.cfg.poolId in Next(s, step).core.jobs
  {
    hide NewEntry, Lawful;
  }

  lemma ReturnedIsQuiet<E>(s: State<E>)
    requires Inv(s) && s.stop.Returned?
    ensures s.core.tasks == multiset{}
  {
    hide InvFires, InvPark, InvJobs;
    assert |s.core.tasks| == 0;
  }

  lemma ReturnedStays<E>(s: State<E>, step: Step<E>)
    requires Inv(s) && Enabled(s, step) && s.stop.Returned?
    ensures var t := Next(s, step);
            t.stop.Returned? && t.core.launched == s.core.launched && t.core.tasks == multiset{} && t.core.stopped
  {
    ReturnedIsQuiet(s);
    hide IsEarliest, Lawful, InvFires, InvPark, InvJobs, InvFlight;
  }

  /** Once the Stop call that found the scheduler running has returned, no task is in flight and nothing
      that happens later launches one. */
  lemma {:induction false} NothingRunsAfterStop<E>(ss: seq<State<E>>, steps: seq<Step<E>>, n: nat, m: nat)
    requires IsBehavior(ss, steps) && Initial(ss[0]) && n <= m <= |steps|
    requires ss[n].stop.Returned?
    ensures ss[m].stop.Returned? && ss[m].core.tasks == multiset{} && ss[m].core.launched == ss[n].core.launched
  {
    hide *;
    BehaviorLength(ss, steps);
    InitInv(ss[0]);
    if m == n {
      InvHolds(ss, steps, n);
      ReturnedIsQuiet(ss[n]);
    } else {
      NothingRunsAfterStop(ss, steps, n, m - 1);
      InvHolds(ss, steps, m - 1);
      BehaviorStep(ss, steps, m - 1);
      ReturnedStays(ss[m - 1], steps[m - 1]);
    }
  }

  /** For one entry, consecutive timer dispatches t1, t2 satisfy t1 < Next(t1) <= t2, even if fires in
      between were skipped because a task was still running. */
  lemma TimerFiresAreSpaced<E>(ss: seq<State<E>>, steps: seq<Step<E>>, n: nat, e: E, i: nat)
    requires IsBehavior(ss, steps) && Initial(ss[0]) && n <= |steps|
    requires e in ss[n].core.entries && i + 1 < |ss[n].core.entries[e].fires|
    ensures var entry := ss[n].core.entries[e];
            entry.fires[i] < entry.schedule.next(entry.fires[i]) <= entry.fires[i + 1]
  {
    InitInv(ss[0]);
    InvHolds(ss, steps, n);
    assert FiresApart(ss[n].core.entries[e]);
    assert SpacedBy(ss[n].core.entries[e].schedule, ss[n].core.entries[e].fires[i], ss[n].core.entries[e].fires[i + 1]);
  }

  /** fireDueJobs at `now` leaves nothing due at `now`; the entries it queues for launch are the due,
      idle, current ones, each once and each stamped with one fire however many schedule points have
      passed; a due entry whose task still runs is skipped. */
  lemma FireServesDue<E>(ss: seq<State<E>>, steps: seq<Step<E>>, n: nat)
    requires IsBehavior(ss, steps) && Initial(ss[0]) && n < |steps| && steps[n].LoopFire?
    ensures var s, t := ss[n], ss[n + 1];
            && (forall id :: id in t.core.jobs ==>
                               t.core.jobs[id] in t.core.entries && !IsDue(t.core.entries[t.core.jobs[id]], s.loop.now))
            && Lists(t.loop.toDispatch, DueIdle(s.core, s.loop.now))
            && (forall e :: e in s.core.entries ==>
                              e in t.core.entries && t.core.entries[e].fires ==
                              s.core.entries[e].fires + (if e in DueIdle(s.core, s.loop.now) then [s.loop.now] else []))
  {
    InitInv(ss[0]);
    InvHolds(ss, steps, n);
    InvHolds(ss, steps, n + 1);
    var s, t := ss[n], ss[n + 1];
    assert t == Next(s, steps[n]);
    hide InvFlight, InvFires, InvPark, IsEarliest;
    forall id | id in t.core.jobs ensures !IsDue(t.core.entries[t.core.jobs[id]], s.loop.now) {
      var e := s.core.jobs[id];
      assert e in Current(s.core);
      assert Lawful(s.core.entries[e].schedule);
    }
  }

  /** A new entry is never overdue.  It runs at once, with one task, exactly if the scheduler is live, the
      policy says so and the fire after its last run has been missed; before Start it is kept pending. */
  lemma RegisteredIsNotOverdue<E>(c: Core<E>, e: E, cfg: JobConfig, now: int, at: int)
    requires Lawful(cfg.schedule) && now > 0 && !c.stopped && e !in c.entries
    ensures var d := Register(c, e, cfg, now, at);
            && cfg.poolId in d.jobs && d.jobs[cfg.poolId] == e && d.token
            && (d.entries[e].nextRun == 0 || d.entries[e].nextRun >= now)
            && (var missed := cfg.policy == RunImmediately && cfg.lastRun != 0 && cfg.schedule.next(cfg.lastRun) < now;
                && (d.entries[e].running <==> c.running && missed)
                && (d.entries[e].pendingImmediate <==> !c.running && missed)
                && d.launched == c.launched + (if c.running && missed then 1 else 0))
  {
  }

  /** The overlap is real: registering a pool again while its task runs starts a second task for it. */
  lemma OverlapHappens() returns (ss: seq<State<int>>, steps: seq<Step<int>>)
    ensures IsBehavior(ss, steps) && Initial(ss[0])
    ensures var c := ss[|steps|].core;
            c.tasks == multiset{0, 1} && 0 in c.entries && 1 in c.entries && c.entries[0].poolId == c.entries[1].poolId
  {
    var cfg := JobConfig(7, Schedule(t => t + 1), 1, RunImmediately);
    var s0: State<int> :=
        State(Core(map[], map[], false, false, false, multiset{}, 0, 0), NotStarted, NoStop, 0, false);
    var d0, d1, d2 := DoRegister(0, cfg, 10, 10), DoStart(10), DoRegister(1, cfg, 20, 20);
    assert Lawful(cfg.schedule);
    hide Lawful;
    var s1 := Next(s0, d0);
    StartsPending(s1, 7, 0, 10);
    hide Begin;
    var s2 := Next(s1, d1);
    var s3 := Next(s2, d2);
    assert s3.core.tasks == multiset{0, 1} && s3.core.entries[1].poolId == 7 == s3.core.entries[0].poolId;
    ss, steps := [s0, s1, s2, s3], [d0, d1, d2];
    assert Enabled(s0, d0) && Enabled(s1, d1) && Enabled(s2, d2);
    hide Next, Enabled;
    ThreeSteps(s0, d0, d1, d2);
  }

  lemma ThreeSteps(s: State<int>, d0: Step<int>, d1: Step<int>, d2: Step<int>)
    requires Enabled(s, d0) && Enabled(Next(s, d0), d1) && Enabled(Next(Next(s, d0), d1), d2)
    ensures IsBehavior([s, Next(s, d0), Next(Next(s, d0), d1), Next(Next(Next(s, d0), d1), d2)], [d0, d1, d2])
  {
    hide Next, Enabled;
  }

  lemma StartsPending(s: State<int>, id: int, e: int, at: int)
    requires s.core.jobs == map[id := e] && s.core.entries.Keys == {e} && !s.core.running && !s.core.stopped
    requires s.core.entries[e].pendingImmediate && !s.core.entries[e].running && s.core.tasks == multiset{}
    ensures var t := Next(s, DoStart(at));
            && t.core.tasks == multiset{e} && t.core.running && !t.core.stopped
            && t.core.entries.Keys == {e} && t.core.entries[e].poolId == s.core.entries[e].poolId
  {
    assert id in s.core.jobs && Current(s.core) == {e};
    assert Pending(s.core) == {e} && PendingIdle(s.core) == {e};
  }
}
