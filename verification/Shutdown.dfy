/** internal/orchestrator/controller.go: GracefulShutdown, ImmediateShutdown and
    forceTerminateRemaining. */
module Shutdown {
  import opened Basics
  import opened Tracking
  import opened Auditor
  import opened Provisioning
  import opened Convergence
  import opened PoolLaws

  /** What one poll of the engine brings while waiting: an error, or a live list, with the pools that the
      queue drain after the i-th reap loads. */
  datatype Tick = AuditFailed | Audited(live: seq<RunnerStatus>, db: nat -> Option<Pools>)

  ghost function Idle(f: Fleet): set<Slot> {
    set k | k in f && f[k].state.Running? && !f[k].isBusy
  }

  function Terminations(order: seq<Slot>): seq<Effect> {
    seq(|order|, i requires 0 <= i < |order| => Terminate(order[i]))
  }

  /** Terminate and forget `slots`, met in the order `order`. */
  ghost function Dismiss(s: Sys, slots: set<Slot>, order: seq<Slot>): Sys {
    s.(fleet := s.fleet - slots, log := s.log + Terminations(order))
  }

  ghost function ReapAll(o: Engine, db: nat -> Option<Pools>, s: Sys, exited: seq<RunnerStatus>): Sys {
    if exited == [] then s
    else
      var n := |exited| - 1;
      Reap(o, db(n), ReapAll(o, db, s, exited[..n]), SlotOf(exited[n]))
  }

  ghost function AuditAndReap(o: Engine, s: Sys, tick: Tick): Sys {
    match tick
    case AuditFailed => s
    case Audited(live, db) =>
      ReapAll(o, db, s.(fleet := AuditFleet(s.fleet, live)), ExitedOf(Overlaid(s.fleet, live)))
  }

  datatype Waited = Waited(done: bool, sys: Sys)

  /** Poll until nothing runs or the ticks before the deadline (or cancellation) are used up. */
  ghost function Wait(o: Engine, s: Sys, ticks: seq<Tick>): Waited
    decreases |ticks|
  {
    if ticks == [] then Waited(false, s)
    else
      var t := AuditAndReap(o, s, ticks[0]);
      if Total(t.fleet) == 0 then Waited(true, t) else Wait(o, t, ticks[1..])
  }

  /** Everything up to, but not including, a forced termination. */
  ghost function BeforeForce(o: Engine, s: Sys, idle: seq<Slot>, ticks: seq<Tick>): Waited {
    var t := Dismiss(s, Idle(s.fleet), idle);
    if Total(t.fleet) == 0 then Waited(true, t) else Wait(o, t, ticks)
  }

  ghost function Graceful(o: Engine, s: Sys, idle: seq<Slot>, ticks: seq<Tick>, rest: seq<Slot>): Sys {
    var w := BeforeForce(o, s, idle, ticks);
    if w.done then w.sys else Dismiss(w.sys, RunningSlots(w.sys.fleet), rest)
  }

  ghost function Immediate(s: Sys, order: seq<Slot>): Sys {
    Dismiss(s, RunningSlots(s.fleet), order)
  }

  lemma DismissAll(s: Sys, order: seq<Slot>)
    ensures Total(Dismiss(s, RunningSlots(s.fleet), order).fleet) == 0
  {
    assert RunningSlots(s.fleet - RunningSlots(s.fleet)) == {};
  }

  /** Every way out of a shutdown leaves no running runner tracked. */
  lemma {:induction false} WaitDone(o: Engine, s: Sys, ticks: seq<Tick>)
    ensures Wait(o, s, ticks).done ==> Total(Wait(o, s, ticks).sys.fleet) == 0
    decreases |ticks|
  {
    hide AuditAndReap, Total;
    if ticks != [] {
      WaitDone(o, AuditAndReap(o, s, ticks[0]), ticks[1..]);
    }
  }

  lemma ShutdownLeavesNothingRunning(o: Engine, s: Sys, idle: seq<Slot>, ticks: seq<Tick>, rest: seq<Slot>)
    ensures Total(Graceful(o, s, idle, ticks, rest).fleet) == 0
    ensures Total(Immediate(s, rest).fleet) == 0
  {
    hide Wait, Total;
    WaitDone(o, Dismiss(s, Idle(s.fleet), idle), ticks);
    DismissAll(BeforeForce(o, s, idle, ticks).sys, rest);
    DismissAll(s, rest);
  }

  // ---------------------------------------------------------------- whom a graceful shutdown stops

  /** The slots a live list reports as no longer running. */
  ghost function Exits(live: seq<RunnerStatus>): set<Slot> {
    set r | r in live && !r.state.Running? :: SlotOf(r)
  }

  lemma ExitedSlots(f: Fleet, live: seq<RunnerStatus>)
    ensures SlotsOf(ExitedOf(Overlaid(f, live))) == Exits(live)
    ensures ExitedOf(Overlaid(f, live)) == [] <==> Exits(live) == {}
  {
    var seen := Overlaid(f, live);
    hide Overlaid;
    ExitedOfMembers(seen);
    hide ExitedOf;
    forall k | k in Exits(live) ensures k in SlotsOf(ExitedOf(seen)) {
      ExitSeen(live, seen, k);
    }
    forall k | k in SlotsOf(ExitedOf(seen)) ensures k in Exits(live) {
      SeenExit(live, seen, k);
    }
    hide Exits;
    if ExitedOf(seen) != [] {
      assert ExitedOf(seen)[0] in ExitedOf(seen);
      assert SlotOf(ExitedOf(seen)[0]) in SlotsOf(ExitedOf(seen));
    }
  }

  ghost predicate SameStates(live: seq<RunnerStatus>, seen: seq<RunnerStatus>) {
    && |seen| == |live|
    && forall i :: 0 <= i < |live| ==> SlotOf(seen[i]) == SlotOf(live[i]) && seen[i].state == live[i].state
  }

  lemma ExitSeen(live: seq<RunnerStatus>, seen: seq<RunnerStatus>, k: Slot)
    requires SameStates(live, seen) && k in Exits(live)
    requires forall r :: r in ExitedOf(seen) <==> r in seen && !r.state.Running?
    ensures k in SlotsOf(ExitedOf(seen))
  {
    hide ExitedOf;
    var r :| r in live && !r.state.Running? && SlotOf(r) == k;
    var i :| 0 <= i < |live| && live[i] == r;
    assert seen[i] in seen;
  }

  lemma SeenExit(live: seq<RunnerStatus>, seen: seq<RunnerStatus>, k: Slot)
    requires SameStates(live, seen) && k in SlotsOf(ExitedOf(seen))
    requires forall r :: r in ExitedOf(seen) <==> r in seen && !r.state.Running?
    ensures k in Exits(live)
  {
    hide ExitedOf;
    var r :| r in ExitedOf(seen) && SlotOf(r) == k;
    var i :| 0 <= i < |seen| && seen[i] == r;
    assert live[i] in live;
  }

  /** The slots a poll reported as no longer running. */
  ghost function Reported(tick: Tick): set<Slot> {
    if tick.Audited? then Exits(tick.live) else {}
  }

  /** `b` extends `a`, terminating only slots in `which`. */
  ghost predicate StopsOnly(a: seq<Effect>, b: seq<Effect>, which: set<Slot>) {
    |a| <= |b| && b[..|a|] == a && forall i :: |a| <= i < |b| && b[i].Terminate? ==> b[i].slot in which
  }

  lemma StopsOnlyTrans(a: seq<Effect>, b: seq<Effect>, c: seq<Effect>, which: set<Slot>)
    requires StopsOnly(a, b, which) && StopsOnly(b, c, which)
    ensures StopsOnly(a, c, which)
  {
    assert c[..|a|] == c[..|b|][..|a|];
    forall i | |a| <= i < |b| ensures c[i] == b[i] {
      assert c[i] == c[..|b|][i];
    }
  }

  lemma {:induction false} DrainLoopStops(o: Engine, pools: Pools, s: Sys, q: seq<Request>)
    ensures StopsOnly(s.log, DrainLoop(o, pools, s, q).sys.log, {})
  {
    hide QuotaFull, CapFull, QueuedTarget;
    if q != [] {
      var n := |q| - 1;
      DrainLoopStops(o, pools, s, q[..n]);
      var d := DrainLoop(o, pools, s, q[..n]).sys;
      StopsOnlyTrans(s.log, d.log, HandleRequest(o, pools, d, q[n]).sys.log, {});
    }
  }

  lemma ReapStops(o: Engine, db: Option<Pools>, s: Sys, k: Slot, which: set<Slot>)
    requires k in which
    ensures StopsOnly(s.log, Reap(o, db, s, k).log, which)
  {
    var t := s.(fleet := s.fleet - {k}, log := s.log + [Terminate(k)]);
    assert StopsOnly(s.log, t.log, which);
    if db.Some? {
      DrainLoopStops(o, db.value, t, t.queue);
      StopsOnlyTrans(s.log, t.log, DrainQueue(o, db.value, t).log, which);
    }
  }

  lemma {:induction false} ReapAllStops(o: Engine, db: nat -> Option<Pools>, s: Sys, exited: seq<RunnerStatus>,
                                        which: set<Slot>)
    requires forall r :: r in exited ==> SlotOf(r) in which
    ensures StopsOnly(s.log, ReapAll(o, db, s, exited).log, which)
  {
    hide Reap;
    if exited != [] {
      var n := |exited| - 1;
      ReapAllStops(o, db, s, exited[..n], which);
      var t := ReapAll(o, db, s, exited[..n]);
      ReapStops(o, db(n), t, SlotOf(exited[n]), which);
      StopsOnlyTrans(s.log, t.log, ReapAll(o, db, s, exited).log, which);
    }
  }

  lemma TickStops(o: Engine, s: Sys, tick: Tick)
    ensures StopsOnly(s.log, AuditAndReap(o, s, tick).log, Reported(tick))
  {
    hide ReapAll, AuditFleet, Exits;
    if tick.Audited? {
      var seen := Overlaid(s.fleet, tick.live);
      ExitedSlots(s.fleet, tick.live);
      forall r | r in ExitedOf(seen) ensures SlotOf(r) in Exits(tick.live) {
        assert SlotOf(r) in SlotsOf(ExitedOf(seen));
      }
      ReapAllStops(o, tick.db, s.(fleet := AuditFleet(s.fleet, tick.live)), ExitedOf(seen),
                   Reported(tick));
    }
  }

  lemma {:induction false} WaitSnoc(o: Engine, s: Sys, ticks: seq<Tick>, tick: Tick)
    ensures var w := Wait(o, s, ticks);
            var u := AuditAndReap(o, w.sys, tick);
            Wait(o, s, ticks + [tick]) == if w.done then w else Waited(Total(u.fleet) == 0, u)
    decreases |ticks|
  {
    hide AuditAndReap, Total;
    if ticks == [] {
      assert ([] + [tick])[1..] == [];
    } else {
      assert (ticks + [tick])[1..] == ticks[1..] + [tick];
      WaitSnoc(o, AuditAndReap(o, s, ticks[0]), ticks[1..], tick);
    }
  }

  /** The log once the first `j` polls are over. */
  ghost function LogAfter(o: Engine, s: Sys, idle: seq<Slot>, ticks: seq<Tick>, j: nat): seq<Effect>
    requires j <= |ticks|
  {
    BeforeForce(o, s, idle, ticks[..j]).sys.log
  }

  /** The termination at position `i` is of a runner idle at the start, before any poll; or it falls in
      poll `j`, and that very poll reported the container as no longer running. */
  ghost predicate Excused(o: Engine, s: Sys, idle: seq<Slot>, ticks: seq<Tick>, log: seq<Effect>, i: nat)
    requires i < |log| && log[i].Terminate?
  {
    || (i < |LogAfter(o, s, idle, ticks, 0)| && WasIdle(s.fleet, log[i].slot))
    || exists j :: ExcusedAt(o, s, idle, ticks, log, i, j)
  }

  ghost predicate WasIdle(f: Fleet, k: Slot) {
    k in f && f[k].state.Running? && !f[k].isBusy
  }

  ghost predicate ExcusedAt(o: Engine, s: Sys, idle: seq<Slot>, ticks: seq<Tick>, log: seq<Effect>, i: nat, j: int)
    requires i < |log| && log[i].Terminate?
  {
    && 0 <= j < |ticks| && log[i].slot in Reported(ticks[j])
    && |LogAfter(o, s, idle, ticks, j)| <= i < |LogAfter(o, s, idle, ticks, j + 1)|
  }

  /** Until the deadline or cancellation, a graceful shutdown terminates only runners that were idle
      when it began and, in each poll, the containers that poll reported as no longer running: a runner
      tracked busy is left to finish. */
  lemma {:induction false} GracefulSparesBusy(o: Engine, s: Sys, idle: seq<Slot>, ticks: seq<Tick>)
    requires Lists(idle, Idle(s.fleet))
    ensures var log := BeforeForce(o, s, idle, ticks).sys.log;
            && |s.log| <= |log| && log[..|s.log|] == s.log
            && forall i :: |s.log| <= i < |log| && log[i].Terminate? ==> Excused(o, s, idle, ticks, log, i)
    decreases |ticks|
  {
    hide AuditAndReap, Total;
    var log := BeforeForce(o, s, idle, ticks).sys.log;
    if ticks == [] {
      DismissedIdle(s, idle);
      assert ticks[..0] == [];
    } else {
      var n := |ticks| - 1;
      var init := ticks[..n];
      assert ticks == init + [ticks[n]];
      GracefulSparesBusy(o, s, idle, init);
      BeforeForceSnoc(o, s, idle, init, ticks[n]);
      var before := BeforeForce(o, s, idle, init).sys.log;
      hide BeforeForce;
      forall i | |s.log| <= i < |log| && log[i].Terminate? ensures Excused(o, s, idle, ticks, log, i) {
        LastExcuse(o, s, idle, ticks, before, log, i);
      }
    }
  }

  /** Every idle runner is terminated before the first poll, and every busy or stopped entry is still tracked
      then. */
  lemma GracefulDismissesIdle(o: Engine, s: Sys, idle: seq<Slot>, k: Slot)
    requires Lists(idle, Idle(s.fleet)) && k in s.fleet
    ensures var t := BeforeForce(o, s, idle, []).sys;
            if s.fleet[k].state.Running? && !s.fleet[k].isBusy
            then k !in t.fleet && exists i :: |s.log| <= i < |t.log| && t.log[i] == Terminate(k)
            else k in t.fleet && t.fleet[k] == s.fleet[k]
  {
    hide Total;
    var t := BeforeForce(o, s, idle, []).sys;
    if s.fleet[k].state.Running? && !s.fleet[k].isBusy {
      assert k in idle;
      var j :| 0 <= j < |idle| && idle[j] == k;
      assert t.log[|s.log| + j] == Terminate(k);
    }
  }

  lemma DismissedIdle(s: Sys, idle: seq<Slot>)
    requires Lists(idle, Idle(s.fleet))
    ensures var log := Dismiss(s, Idle(s.fleet), idle).log;
            && |s.log| <= |log| && log[..|s.log|] == s.log
            && forall i :: |s.log| <= i < |log| && log[i].Terminate? ==> WasIdle(s.fleet, log[i].slot)
  {
    var log := Dismiss(s, Idle(s.fleet), idle).log;
    forall i | |s.log| <= i < |log| ensures WasIdle(s.fleet, log[i].slot) {
      assert log[i] == Terminate(idle[i - |s.log|]);
      assert idle[i - |s.log|] in idle;
    }
  }

  lemma BeforeForceSnoc(o: Engine, s: Sys, idle: seq<Slot>, init: seq<Tick>, tick: Tick)
    ensures StopsOnly(BeforeForce(o, s, idle, init).sys.log, BeforeForce(o, s, idle, init + [tick]).sys.log,
                      Reported(tick))
  {
    hide Wait, AuditAndReap, Total, Reported;
    var t := Dismiss(s, Idle(s.fleet), idle);
    WaitSnoc(o, t, init, tick);
    TickStops(o, Wait(o, t, init).sys, tick);
  }

  lemma LastExcuse(o: Engine, s: Sys, idle: seq<Slot>, ticks: seq<Tick>, before: seq<Effect>, log: seq<Effect>, i: nat)
    requires ticks != [] && |s.log| <= i < |log| && log[i].Terminate?
    requires before == BeforeForce(o, s, idle, ticks[..|ticks| - 1]).sys.log
    requires log == BeforeForce(o, s, idle, ticks).sys.log
    requires StopsOnly(before, log, Reported(ticks[|ticks| - 1]))
    requires forall i :: |s.log| <= i < |before| && before[i].Terminate? ==>
                           Excused(o, s, idle, ticks[..|ticks| - 1], before, i)
    ensures Excused(o, s, idle, ticks, log, i)
  {
    hide BeforeForce, Reported;
    var n := |ticks| - 1;
    var init := ticks[..n];
    assert ticks[..n + 1] == ticks;
    if i < |before| {
      assert log[i] == log[..|before|][i];
      assert Excused(o, s, idle, init, before, i);
      assert init[..0] == ticks[..0];
      if !(i < |LogAfter(o, s, idle, init, 0)| && WasIdle(s.fleet, before[i].slot)) {
        var j :| ExcusedAt(o, s, idle, init, before, i, j);
        assert init[..j] == ticks[..j] && init[..j + 1] == ticks[..j + 1];
        assert ExcusedAt(o, s, idle, ticks, log, i, j);
      }
    } else {
      assert ExcusedAt(o, s, idle, ticks, log, i, n);
    }
  }

  // ---------------------------------------------------------------- exactly when a shutdown spawns

  /** Nothing in the queue can be tried: the pool of each request is gone, or the request is blocked. */
  ghost predicate Stuck(pools: Pools, s: Sys, q: seq<Request>) {
    forall r :: r in q && r.poolName in pools ==> Blocked(pools, s, r)
  }

  /** The requests of pools still in the database. */
  ghost function Known(pools: Pools, q: seq<Request>): seq<Request> {
    if q == [] then []
    else
      var n := |q| - 1;
      if q[n].poolName in pools then Known(pools, q[..n]) + [q[n]] else Known(pools, q[..n])
  }

  /** What a drain that tries nothing leaves of the queue. */
  ghost function Settled(pools: Pools, s: Sys, q: seq<Request>): seq<Request> {
    if QuotaFull(s) then q else Known(pools, q)
  }

  lemma {:induction false} KnownMembers(pools: Pools, q: seq<Request>)
    ensures forall r :: r in Known(pools, q) <==> r in q && r.poolName in pools
    ensures Known(pools, Known(pools, q)) == Known(pools, q)
  {
    if q != [] {
      var n := |q| - 1;
      KnownMembers(pools, q[..n]);
      assert q == q[..n] + [q[n]];
      if q[n].poolName in pools {
        assert (Known(pools, q[..n]) + [q[n]])[..|Known(pools, q[..n])|] == Known(pools, q[..n]);
      }
    }
  }

  lemma HandleTries(o: Engine, pools: Pools, s: Sys, r: Request)
    ensures var h := HandleRequest(o, pools, s, r);
            && h.sys.calls >= s.calls
            && (h.sys.calls == s.calls <==> (r.poolName in pools ==> Blocked(pools, s, r)))
            && (h.sys.calls == s.calls ==>
                  h.sys == s && (h.verdict == if QuotaFull(s) || r.poolName in pools then Left else Discarded))
  {
    hide Total, Count;
  }

  /** A drain makes no spawn attempt exactly if nothing in the queue can be tried, and then it only
      forgets requests of pools that are gone. */
  lemma {:induction false} DrainTries(o: Engine, pools: Pools, s: Sys, q: seq<Request>)
    ensures var d := DrainLoop(o, pools, s, q);
            && (d.sys.calls == s.calls <==> Stuck(pools, s, q))
            && (Stuck(pools, s, q) ==> d.sys == s && Select(q, d.verdicts, Left) == Settled(pools, s, q))
  {
    hide HandleRequest, Blocked, QuotaFull;
    if q != [] {
      var n := |q| - 1;
      DrainTries(o, pools, s, q[..n]);
      assert q == q[..n] + [q[n]];
      var d := DrainLoop(o, pools, s, q[..n]);
      HandleTries(o, pools, d.sys, q[n]);
      SelectSnoc(q, d.verdicts, HandleRequest(o, pools, d.sys, q[n]).verdict, Left);
    }
  }

  /** Reaping one container tries to spawn exactly if, with it gone, some request can be tried; the
      controller's mode plays no part. */
  lemma ReapTries(o: Engine, pools: Pools, s: Sys, k: Slot)
    ensures Reap(o, Some(pools), s, k).calls >= s.calls
    ensures var t := s.(fleet := s.fleet - {k});
            && (Reap(o, Some(pools), s, k).calls == s.calls <==> Stuck(pools, t, s.queue))
            && (Stuck(pools, t, s.queue) ==>
                  Reap(o, Some(pools), s, k) ==
                  t.(queue := Settled(pools, t, s.queue), log := s.log + [Terminate(k)]))
  {
    hide Blocked, QuotaFull;
    var t := s.(fleet := s.fleet - {k});
    var u := t.(log := s.log + [Terminate(k)]);
    SameBlocked(pools, t, u);
    DrainTries(o, pools, u, s.queue);
  }

  lemma SameBlocked(pools: Pools, s: Sys, t: Sys)
    requires s.fleet == t.fleet && s.quota == t.quota
    ensures QuotaFull(s) == QuotaFull(t) && forall r :: Blocked(pools, s, r) == Blocked(pools, t, r)
  {
  }

  /** The state once the slots of `exited` are dropped one by one, each followed by a drain that tries
      nothing; no engine takes part. */
  ghost function Dropped(db: nat -> Option<Pools>, s: Sys, exited: seq<RunnerStatus>): Sys {
    if exited == [] then s
    else
      var n := |exited| - 1;
      var u := Dropped(db, s, exited[..n]);
      var t := u.(fleet := u.fleet - {SlotOf(exited[n])});
      if db(n).Some? then t.(queue := Settled(db(n).value, t, t.queue)) else t
  }

  /** After each reap, the pools cannot be loaded or nothing in the queue can be tried. */
  ghost predicate ReapsStuck(db: nat -> Option<Pools>, s: Sys, exited: seq<RunnerStatus>) {
    exited == [] ||
    (var n := |exited| - 1;
     var u := Dropped(db, s, exited[..n]);
     var t := u.(fleet := u.fleet - {SlotOf(exited[n])});
     ReapsStuck(db, s, exited[..n]) && (db(n).Some? ==> Stuck(db(n).value, t, t.queue)))
  }

  lemma {:induction false} ReapAllTries(o: Engine, db: nat -> Option<Pools>, s: Sys, exited: seq<RunnerStatus>)
    ensures var u := ReapAll(o, db, s, exited);
            && u.calls >= s.calls
            && (u.calls == s.calls <==> ReapsStuck(db, s, exited))
            && (u.calls == s.calls ==> u == Dropped(db, s, exited).(log := u.log))
  {
    hide Reap, Blocked, QuotaFull, Stuck, Settled;
    if exited != [] {
      var n := |exited| - 1;
      var init, k := exited[..n], SlotOf(exited[n]);
      ReapAllTries(o, db, s, init);
      DroppedCalls(db, s, init);
      var r0 := ReapAll(o, db, s, init);
      if db(n).Some? {
        ReapTries(o, db(n).value, r0, k);
        var u := Dropped(db, s, init);
        SameStuck(db(n).value, u.(fleet := u.fleet - {k}), r0.log);
      } else {
        ReapUnread(o, r0, k);
      }
    }
  }

  lemma ReapUnread(o: Engine, s: Sys, k: Slot)
    ensures Reap(o, None, s, k) == s.(fleet := s.fleet - {k}, log := s.log + [Terminate(k)])
  {
  }

  lemma {:induction false} DroppedCalls(db: nat -> Option<Pools>, s: Sys, exited: seq<RunnerStatus>)
    ensures Dropped(db, s, exited).calls == s.calls
  {
    hide Settled;
    if exited != [] {
      DroppedCalls(db, s, exited[..|exited| - 1]);
    }
  }

  lemma SameStuck(pools: Pools, s: Sys, log: seq<Effect>)
    ensures Stuck(pools, s.(log := log), s.queue) <==> Stuck(pools, s, s.queue)
    ensures Settled(pools, s.(log := log), s.queue) == Settled(pools, s, s.queue)
  {
    hide Blocked, QuotaFull, Known;
    SameBlocked(pools, s, s.(log := log));
  }

  /** One poll makes no spawn attempt: none of the reaps it causes does. */
  ghost predicate TickStuck(s: Sys, tick: Tick) {
    tick.Audited? ==>
      ReapsStuck(tick.db, s.(fleet := AuditFleet(s.fleet, tick.live)), ExitedOf(Overlaid(s.fleet, tick.live)))
  }

  /** The state after a poll that makes no attempt. */
  ghost function AfterTick(s: Sys, tick: Tick): Sys {
    if tick.AuditFailed? then s
    else Dropped(tick.db, s.(fleet := AuditFleet(s.fleet, tick.live)), ExitedOf(Overlaid(s.fleet, tick.live)))
  }

  lemma TickTries(o: Engine, s: Sys, tick: Tick)
    ensures var u := AuditAndReap(o, s, tick);
            && u.calls >= s.calls
            && (u.calls == s.calls <==> TickStuck(s, tick))
            && (u.calls == s.calls ==> u == AfterTick(s, tick).(log := u.log))
  {
    hide ReapAll, AuditFleet, Overlaid, ExitedOf, ReapsStuck, Dropped;
    if tick.Audited? {
      ReapAllTries(o, tick.db, s.(fleet := AuditFleet(s.fleet, tick.live)), ExitedOf(Overlaid(s.fleet, tick.live)));
    }
  }

  /** No poll makes an attempt, up to the first after which nothing runs. */
  ghost predicate WaitStuck(s: Sys, ticks: seq<Tick>)
    decreases |ticks|
  {
    ticks == [] ||
    (&& TickStuck(s, ticks[0])
     && var t := AfterTick(s, ticks[0]);
        Total(t.fleet) == 0 || WaitStuck(t, ticks[1..]))
  }

  lemma {:induction false} WaitStuckLog(s: Sys, log: seq<Effect>, ticks: seq<Tick>)
    ensures WaitStuck(s.(log := log), ticks) <==> WaitStuck(s, ticks)
    decreases |ticks|
  {
    hide Total;
    if ticks != [] {
      TickLog(s, log, ticks[0]);
      hide TickStuck, AfterTick;
      WaitStuckLog(AfterTick(s, ticks[0]), log, ticks[1..]);
    }
  }

  lemma TickLog(s: Sys, log: seq<Effect>, tick: Tick)
    ensures TickStuck(s.(log := log), tick) <==> TickStuck(s, tick)
    ensures AfterTick(s.(log := log), tick) == AfterTick(s, tick).(log := log)
  {
    hide ReapsStuck, Dropped, AuditFleet, Overlaid, ExitedOf;
    if tick.Audited? {
      ReapsLog(tick.db, s.(fleet := AuditFleet(s.fleet, tick.live)), log, ExitedOf(Overlaid(s.fleet, tick.live)));
    }
  }

  lemma {:induction false} ReapsLog(db: nat -> Option<Pools>, s: Sys, log: seq<Effect>, exited: seq<RunnerStatus>)
    ensures ReapsStuck(db, s.(log := log), exited) <==> ReapsStuck(db, s, exited)
    ensures Dropped(db, s.(log := log), exited) == Dropped(db, s, exited).(log := log)
  {
    hide Stuck, Settled;
    if exited != [] {
      var n := |exited| - 1;
      ReapsLog(db, s, log, exited[..n]);
      var u := Dropped(db, s, exited[..n]);
      if db(n).Some? {
        SameStuck(db(n).value, u.(fleet := u.fleet - {SlotOf(exited[n])}), log);
      }
    }
  }

  lemma {:induction false} WaitTries(o: Engine, s: Sys, ticks: seq<Tick>)
    ensures Wait(o, s, ticks).sys.calls >= s.calls
    ensures Wait(o, s, ticks).sys.calls == s.calls <==> WaitStuck(s, ticks)
    decreases |ticks|
  {
    hide AuditAndReap, Total, TickStuck, AfterTick;
    if ticks != [] {
      var t := AuditAndReap(o, s, ticks[0]);
      TickTries(o, s, ticks[0]);
      WaitTries(o, t, ticks[1..]);
      if t.calls == s.calls {
        WaitStuckLog(AfterTick(s, ticks[0]), t.log, ticks[1..]);
      }
    }
  }

  /** A graceful shutdown makes no spawn attempt exactly if nothing runs once the idle runners are gone, or
      no poll finds a request that can be tried.  The engine plays no part in the condition. */
  lemma GracefulTries(o: Engine, s: Sys, idle: seq<Slot>, ticks: seq<Tick>, rest: seq<Slot>)
    ensures Graceful(o, s, idle, ticks, rest).calls >= s.calls
    ensures var t := s.(fleet := s.fleet - Idle(s.fleet));
            Graceful(o, s, idle, ticks, rest).calls == s.calls <==> Total(t.fleet) == 0 || WaitStuck(t, ticks)
  {
    hide Wait, Total, WaitStuck, Idle;
    var t := s.(fleet := s.fleet - Idle(s.fleet));
    var u := Dismiss(s, Idle(s.fleet), idle);
    WaitTries(o, u, ticks);
    WaitStuckLog(t, u.log, ticks);
  }

  /** Reports of the containers in `ks` as exited. */
  lemma {:induction false} Obituaries(ks: set<Slot>) returns (live: seq<RunnerStatus>)
    ensures Exits(live) == ks && forall r :: r in live ==> !r.state.Running?
  {
    if ks == {} {
      live := [];
    } else {
      var k :| k in ks;
      var rest := Obituaries(ks - {k});
      var r := RunnerStatus(k.id, "", k.pool, NotRunning("exited"), 0, false, false, "");
      live := rest + [r];
      assert Exits(live) == Exits(rest) + {k};
    }
  }

  /** With one database throughout, what is left of the fleet is what was not dropped, and requests of its
      pools stay queued. */
  lemma {:induction false} DroppedFrom(pools: Pools, db: nat -> Option<Pools>, s: Sys, exited: seq<RunnerStatus>,
                                       r: Request)
    requires (forall n :: db(n) == Some(pools)) && r in s.queue && r.poolName in pools
    ensures Dropped(db, s, exited).fleet == s.fleet - SlotsOf(exited)
    ensures Dropped(db, s, exited).quota == s.quota && r in Dropped(db, s, exited).queue
  {
    hide QuotaFull, SlotsOf;
    SlotsSnoc(s.fleet, if exited == [] then [SomeRunner()] else exited);
    if exited != [] {
      var n := |exited| - 1;
      DroppedFrom(pools, db, s, exited[..n], r);
      KnownMembers(pools, Dropped(db, s, exited[..n]).queue);
    }
  }

  ghost function SomeRunner(): RunnerStatus {
    RunnerStatus("", "", "", NotRunning(""), 0, false, false, "")
  }

  lemma SlotsSnoc(f: Fleet, exited: seq<RunnerStatus>)
    requires exited != []
    ensures var n := |exited| - 1;
            f - SlotsOf(exited[..n]) - {SlotOf(exited[n])} == f - SlotsOf(exited)
    ensures f - SlotsOf([]) == f
  {
    var n := |exited| - 1;
    assert exited == exited[..n] + [exited[n]];
    assert SlotsOf(exited) == SlotsOf(exited[..n]) + {SlotOf(exited[n])};
    assert SlotsOf([]) == {};
  }

  /** If every tracked container is reported exited, the request at the head of the queue is tried, in a
      database that has its pool without a cap. */
  lemma AllExitedIsNotStuck(s: Sys, live: seq<RunnerStatus>, pools: Pools, db: nat -> Option<Pools>)
    requires s.queue != [] && s.fleet != map[] && Exits(live) == s.fleet.Keys
    requires forall r :: r in live ==> !r.state.Running?
    requires s.queue[0].poolName in pools && pools[s.queue[0].poolName].maxConcurrency == 0
    requires forall n :: db(n) == Some(pools)
    ensures !TickStuck(s, Audited(live, db))
  {
    hide AuditFleet, Overlaid, ExitedOf, SlotsOf, Exits, Dropped, Blocked;
    var a := s.(fleet := AuditFleet(s.fleet, live));
    var exited := ExitedOf(Overlaid(s.fleet, live));
    ExitedSlots(s.fleet, live);
    NobodySurvives(s.fleet, live);
    var n := |exited| - 1;
    DroppedFrom(pools, db, a, exited[..n], s.queue[0]);
    SlotsSnoc(a.fleet, exited);
    var u := Dropped(db, a, exited[..n]);
    var t := u.(fleet := u.fleet - {SlotOf(exited[n])});
    assert t.fleet == map[];
    NothingBlocks(pools, t, s.queue[0]);
  }

  lemma NothingBlocks(pools: Pools, s: Sys, r: Request)
    requires s.fleet == map[] && r.poolName in pools && pools[r.poolName].maxConcurrency == 0
    ensures !Blocked(pools, s, r)
  {
    assert RunningSlots(s.fleet) == {};
  }

  lemma NobodySurvives(f: Fleet, live: seq<RunnerStatus>)
    requires Exits(live) == f.Keys && forall r :: r in live ==> !r.state.Running?
    ensures AuditFleet(f, live) - Exits(live) == map[]
  {
    forall k ensures k !in AuditFleet(f, live) - Exits(live) {
      AbsorbAllAt(f, live, k);
      if Occurs(live, k) {
        assert k in Exits(live);
      }
    }
  }

  /** Exactly the states from which no graceful shutdown ever makes a spawn attempt, whatever the audits and
      the database answer: the queue is empty, or no runner is busy. */
  lemma GracefulNeverSpawnsExactly(o: Engine, s: Sys)
    ensures (forall idle, ticks, rest :: Graceful(o, s, idle, ticks, rest).calls == s.calls) <==>
            s.queue == [] || Total(s.fleet - Idle(s.fleet)) == 0
  {
    var t := s.(fleet := s.fleet - Idle(s.fleet));
    if s.queue == [] || Total(t.fleet) == 0 {
      forall idle, ticks, rest ensures Graceful(o, s, idle, ticks, rest).calls == s.calls {
        GracefulTries(o, s, idle, ticks, rest);
        if s.queue == [] {
          EmptyQueueIsStuck(t, ticks);
        }
      }
    } else {
      var ticks := TellingTick(t);
      GracefulTries(o, s, [], ticks, []);
      hide Graceful, WaitStuck;
      assert Graceful(o, s, [], ticks, []).calls != s.calls;
    }
  }

  lemma TellingTick(s: Sys) returns (ticks: seq<Tick>)
    requires s.queue != [] && Total(s.fleet) != 0
    ensures !WaitStuck(s, ticks)
  {
    var live := Obituaries(s.fleet.Keys);
    var name := s.queue[0].poolName;
    var pools := map[name := Pool(0, name, 0, 0, 0, "", [])];
    assert RunningSlots(map[]) == {};
    AllExitedIsNotStuck(s, live, pools, _ => Some(pools));
    ticks := [Audited(live, _ => Some(pools))];
    hide TickStuck;
  }

  lemma {:induction false} EmptyQueueIsStuck(s: Sys, ticks: seq<Tick>)
    requires s.queue == []
    ensures WaitStuck(s, ticks)
    decreases |ticks|
  {
    hide Total, ReapsStuck, Dropped, AuditFleet, Overlaid, ExitedOf;
    if ticks != [] {
      var tick := ticks[0];
      if tick.Audited? {
        EmptyQueueReaps(tick.db, s.(fleet := AuditFleet(s.fleet, tick.live)), ExitedOf(Overlaid(s.fleet, tick.live)));
      }
      EmptyQueueIsStuck(AfterTick(s, tick), ticks[1..]);
    }
  }

  lemma {:induction false} EmptyQueueReaps(db: nat -> Option<Pools>, s: Sys, exited: seq<RunnerStatus>)
    requires s.queue == []
    ensures ReapsStuck(db, s, exited) && Dropped(db, s, exited).queue == []
  {
    hide Blocked, QuotaFull;
    if exited != [] {
      EmptyQueueReaps(db, s, exited[..|exited| - 1]);
    }
  }

  /** It does happen: one busy runner, one request queued behind a full quota, and one poll that reports the
      runner as exited. */
  lemma GracefulSpawnsExample(o: Engine, r: RunnerStatus, rest: seq<Slot>)
    requires r == RunnerStatus("c1", "r1", "p", Running, 5, true, false, "u")
    ensures var s := Sys(map[SlotOf(r) := r], [Request("p", "u")], 1, 0, []);
            var pools := map["p" := Pool(1, "p", 1, 0, 0, "u", ["u"])];
            var tick := Audited([r.(state := NotRunning("exited"))], _ => Some(pools));
            QuotaFull(s) && Graceful(o, s, [], [tick], rest).calls > s.calls
  {
    var s := Sys(map[SlotOf(r) := r], [Request("p", "u")], 1, 0, []);
    var live := [r.(state := NotRunning("exited"))];
    var pools := map["p" := Pool(1, "p", 1, 0, 0, "u", ["u"])];
    var db: nat -> Option<Pools> := _ => Some(pools);
    assert Idle(s.fleet) == {};
    assert s.fleet - {} == s.fleet;
    assert RunningSlots(s.fleet) == {SlotOf(r)};
    assert live[0] in live;
    assert Exits(live) == {SlotOf(r)};
    AllExitedIsNotStuck(s, live, pools, db);
    GracefulTries(o, s, [], [Audited(live, db)], rest);
    hide Graceful, TickStuck, AfterTick;
  }
}
