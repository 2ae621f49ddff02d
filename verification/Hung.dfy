/** internal/orchestrator/controller.go: checkHungRunners, which force-terminates runners older than
    their pool's lifetime and drains the queue after each of them. */
module Hung {
  import opened Basics
  import opened Tracking
  import opened Provisioning
  import opened PoolLaws

  predicate IsHung(r: RunnerStatus, p: Pool, now: int) {
    p.maxLifetime > 0 && r.state.Running? && r.spawnedAt != 0 && now - r.spawnedAt > p.maxLifetime
  }

  function HungOf(rs: seq<RunnerStatus>, p: Pool, now: int): seq<RunnerStatus> {
    if rs == [] then []
    else
      var n := |rs| - 1;
      HungOf(rs[..n], p, now) + (if IsHung(rs[n], p, now) then [rs[n]] else [])
  }

  function SlotSeq(rs: seq<RunnerStatus>): seq<Slot> {
    seq(|rs|, i requires 0 <= i < |rs| => SlotOf(rs[i]))
  }

  /** The parts of a pass that do not change: the engine, what each queue drain reads from the database
      (None if the pools could not be loaded; drains are told apart by how many effects came before),
      whether a job recorder is set, and the clock reading it started from. */
  datatype Pass = Pass(o: Engine, db: nat -> Option<Pools>, recorder: bool, now: int)

  ghost predicate NamedReads(db: nat -> Option<Pools>) {
    forall n :: db(n).Some? ==> WellNamed(db(n).value)
  }

  ghost function Killing(c: Pass, s: Sys, k: Slot): Sys {
    s.(fleet := s.fleet - {k},
       log := s.log + [Terminate(k)] + (if c.recorder then [RecordTimeout(k)] else []))
  }

  ghost function KillHung(c: Pass, s: Sys, k: Slot): Sys {
    var t := Killing(c, s, k);
    var read := c.db(|t.log|);
    if read.Some? then DrainQueue(c.o, read.value, t) else t
  }

  /** One pool, whose runners were snapshot in the order `rs`. */
  ghost function HungLoop(c: Pass, s: Sys, p: Pool, rs: seq<RunnerStatus>): Sys {
    if rs == [] then s
    else
      var n := |rs| - 1;
      var t := HungLoop(c, s, p, rs[..n]);
      if IsHung(rs[n], p, c.now) then KillHung(c, t, SlotOf(rs[n])) else t
  }

  datatype Check = Check(p: Pool, rs: seq<RunnerStatus>)

  ghost function HungPass(c: Pass, s: Sys, work: seq<Check>): Sys {
    if work == [] then s
    else
      var n := |work| - 1;
      HungLoop(c, HungPass(c, s, work[..n]), work[n].p, work[n].rs)
  }

  /** Each pool's snapshot was taken when the pass reached that pool. */
  ghost predicate SnapshotsTaken(c: Pass, s: Sys, work: seq<Check>) {
    work == [] ||
    (var n := |work| - 1;
     SnapshotsTaken(c, s, work[..n]) && Listing(HungPass(c, s, work[..n]).fleet, work[n].p.name, work[n].rs))
  }

  /** The slots the pass kills, in order. */
  ghost function Killed(work: seq<Check>, now: int): seq<Slot> {
    if work == [] then []
    else
      var n := |work| - 1;
      Killed(work[..n], now) + SlotSeq(HungOf(work[n].rs, work[n].p, now))
  }

  // ---------------------------------------------------------------- projections of the log

  ghost function Terminated(log: seq<Effect>): seq<Slot> {
    if log == [] then []
    else
      var n := |log| - 1;
      Terminated(log[..n]) + (if log[n].Terminate? then [log[n].slot] else [])
  }

  ghost function Timeouts(log: seq<Effect>): seq<Slot> {
    if log == [] then []
    else
      var n := |log| - 1;
      Timeouts(log[..n]) + (if log[n].RecordTimeout? then [log[n].slot] else [])
  }

  lemma LogSnoc(log: seq<Effect>, e: Effect)
    ensures Terminated(log + [e]) == Terminated(log) + (if e.Terminate? then [e.slot] else [])
    ensures Timeouts(log + [e]) == Timeouts(log) + (if e.RecordTimeout? then [e.slot] else [])
  {
    assert (log + [e])[..|log|] == log;
  }

  // ---------------------------------------------------------------- what a pass preserves

  ghost predicate Distinct(ks: seq<Slot>) {
    forall i, j :: 0 <= i < j < |ks| ==> ks[i] != ks[j]
  }

  /** From `s` to `t` nothing was removed but `killed`, each once and each older than `now`; nothing
      was added but runners spawned since; and the log says exactly that. */
  ghost predicate Progress(c: Pass, s: Sys, t: Sys, killed: seq<Slot>) {
    && s.calls <= t.calls && Fresh(c.o, t) && WellKeyed(t.fleet)
    && Additions(c, s, t) && Removals(c, s, t, killed) && Logged(c, s, t, killed)
  }

  ghost predicate IsNew(c: Pass, s: Sys, t: Sys, k: Slot)
    requires k in t.fleet
  {
    c.o.birth(k.id) >= s.calls && t.fleet[k].spawnedAt >= c.now
  }

  ghost predicate Additions(c: Pass, s: Sys, t: Sys) {
    forall k :: k in t.fleet ==> (k in s.fleet && t.fleet[k] == s.fleet[k]) || IsNew(c, s, t, k)
  }

  ghost predicate Removals(c: Pass, s: Sys, t: Sys, killed: seq<Slot>) {
    && (forall k :: k in s.fleet && k !in killed ==> k in t.fleet)
    && (forall k :: k in killed ==> k in s.fleet && k !in t.fleet && s.fleet[k].spawnedAt < c.now)
    && Distinct(killed)
  }

  ghost predicate Logged(c: Pass, s: Sys, t: Sys, killed: seq<Slot>) {
    && |s.log| <= |t.log|
    && (forall i :: |s.log| <= i < |t.log| && t.log[i].Spawn? ==> c.o.birth(t.log[i].slot.id) >= s.calls)
    && Terminated(t.log) == Terminated(s.log) + killed
    && Timeouts(t.log) == Timeouts(s.log) + (if c.recorder then killed else [])
  }

  lemma NoProgress(c: Pass, s: Sys)
    requires Fresh(c.o, s) && WellKeyed(s.fleet)
    ensures Progress(c, s, s, [])
  {
  }

  lemma Compose(c: Pass, s: Sys, t: Sys, u: Sys, a: seq<Slot>, b: seq<Slot>)
    requires Fresh(c.o, s) && Progress(c, s, t, a) && Progress(c, t, u, b)
    requires |t.log| <= |u.log| && u.log[..|t.log|] == t.log
    ensures Progress(c, s, u, a + b)
  {
    hide WellKeyed, Terminated, Timeouts;
    ComposeAdditions(c, s, t, u);
    ComposeRemovals(c, s, t, u, a, b);
    assert Logged(c, s, u, a + b) by {
      forall i | |s.log| <= i < |u.log| && u.log[i].Spawn? ensures c.o.birth(u.log[i].slot.id) >= s.calls {
        if i < |t.log| {
          assert u.log[i] == u.log[..|t.log|][i];
        }
      }
    }
  }

  lemma ComposeAdditions(c: Pass, s: Sys, t: Sys, u: Sys)
    requires Additions(c, s, t) && Additions(c, t, u) && s.calls <= t.calls
    ensures Additions(c, s, u)
  {
    forall k | k in u.fleet ensures (k in s.fleet && u.fleet[k] == s.fleet[k]) || IsNew(c, s, u, k) {
      if !IsNew(c, t, u, k) {
        assert k in t.fleet && u.fleet[k] == t.fleet[k];
      }
    }
  }

  lemma ComposeRemovals(c: Pass, s: Sys, t: Sys, u: Sys, a: seq<Slot>, b: seq<Slot>)
    requires Fresh(c.o, s) && s.calls <= t.calls
    requires Additions(c, s, t) && Additions(c, t, u) && Removals(c, s, t, a) && Removals(c, t, u, b)
    ensures Removals(c, s, u, a + b)
  {
    var all := a + b;
    assert forall k :: k in all <==> k in a || k in b;
    forall k | k in b ensures k in s.fleet && k !in u.fleet && s.fleet[k].spawnedAt < c.now && k !in a {
      assert k in t.fleet && !IsNew(c, s, t, k);
    }
    forall k | k in a ensures k in s.fleet && k !in u.fleet && s.fleet[k].spawnedAt < c.now {
      assert k !in t.fleet;
      assert k in u.fleet ==> IsNew(c, t, u, k);
    }
    forall i, j | 0 <= i < j < |all| ensures all[i] != all[j] {
      if i < |a| <= j {
        assert all[i] in a && all[j] in b;
      }
    }
  }

  /** Spawned runners are stamped with a clock reading not before the pass's own. */
  ghost predicate ClockAdvances(c: Pass, calls: nat) {
    forall i: nat :: calls <= i && c.o.spawn(i).Spawned? ==> c.o.spawn(i).at >= c.now
  }

  lemma SpawnProgress(c: Pass, s: Sys, p: Pool, onDemand: bool, url: string)
    requires Fresh(c.o, s) && WellKeyed(s.fleet) && ClockAdvances(c, s.calls)
    ensures Progress(c, s, SpawnRunner(c.o, s, p, onDemand, url).sys, [])
    ensures SpawnRunner(c.o, s, p, onDemand, url).sys.log[..|s.log|] == s.log
  {
    var t := SpawnRunner(c.o, s, p, onDemand, url).sys;
    SpawnFacts(c.o, s, p, onDemand, url, p.name);
    if c.o.spawn(s.calls).Spawned? {
      var e := t.log[|s.log|];
      assert t.log == s.log + [e];
      LogSnoc(s.log, e);
      assert Additions(c, s, t);
      assert Removals(c, s, t, []);
    } else {
      assert t.fleet == s.fleet && t.log == s.log;
    }
  }

  lemma {:induction false} DrainLoopProgress(c: Pass, pools: Pools, s: Sys, q: seq<Request>)
    requires WellNamed(pools) && Fresh(c.o, s) && WellKeyed(s.fleet) && ClockAdvances(c, s.calls)
    ensures Progress(c, s, DrainLoop(c.o, pools, s, q).sys, [])
    ensures |s.log| <= |DrainLoop(c.o, pools, s, q).sys.log|
    ensures DrainLoop(c.o, pools, s, q).sys.log[..|s.log|] == s.log
  {
    hide WellKeyed, Additions, Removals, SpawnRunner, Blocked, CapFull, QuotaFull, Terminated, Timeouts;
    if q == [] {
      NoProgress(c, s);
    } else {
      var n := |q| - 1;
      DrainLoopProgress(c, pools, s, q[..n]);
      var d := DrainLoop(c.o, pools, s, q[..n]);
      var h := HandleRequest(c.o, pools, d.sys, q[n]);
      if h.sys != d.sys {
        var p := pools[q[n].poolName];
        SpawnProgress(c, d.sys, p, true, QueuedTarget(d.sys.fleet, p, q[n]));
        var none: seq<Slot> := [];
        Compose(c, s, d.sys, h.sys, none, none);
        assert none + none == none;
        assert h.sys.log[..|s.log|] == h.sys.log[..|d.sys.log|][..|s.log|];
      }
    }
  }

  lemma KillProgress(c: Pass, s: Sys, k: Slot)
    requires Fresh(c.o, s) && WellKeyed(s.fleet) && ClockAdvances(c, s.calls)
    requires NamedReads(c.db)
    requires k in s.fleet && s.fleet[k].spawnedAt < c.now
    ensures Progress(c, s, KillHung(c, s, k), [k])
    ensures |s.log| <= |KillHung(c, s, k).log| && KillHung(c, s, k).log[..|s.log|] == s.log
  {
    var t := Killing(c, s, k);
    LogSnoc(s.log, Terminate(k));
    LogSnoc(s.log + [Terminate(k)], RecordTimeout(k));
    if !c.recorder {
      assert s.log + [Terminate(k)] + [] == s.log + [Terminate(k)];
    }
    assert Removals(c, s, t, [k]) && Additions(c, s, t);
    assert Timeouts(t.log) == Timeouts(s.log) + (if c.recorder then [k] else []);
    assert Terminated(t.log) == Terminated(s.log) + [k];
    assert Progress(c, s, t, [k]);
    assert t.log[..|s.log|] == s.log;
    if c.db(|t.log|).Some? {
      AfterKill(c, s, t, k);
    }
  }

  lemma AfterKill(c: Pass, s: Sys, t: Sys, k: Slot)
    requires Fresh(c.o, s) && c.db(|t.log|).Some? && NamedReads(c.db) && ClockAdvances(c, s.calls)
    requires Progress(c, s, t, [k]) && |s.log| <= |t.log| && t.log[..|s.log|] == s.log
    ensures var u := DrainQueue(c.o, c.db(|t.log|).value, t);
            Progress(c, s, u, [k]) && |s.log| <= |u.log| && u.log[..|s.log|] == s.log
  {
    hide Additions, Removals, Terminated, Timeouts, WellKeyed;
    var pools := c.db(|t.log|).value;
    var d := DrainLoop(c.o, pools, t, t.queue).sys;
    var u := DrainQueue(c.o, pools, t);
    DrainLoopProgress(c, pools, t, t.queue);
    Compose(c, s, t, d, [k], []);
    assert [k] + [] == [k];
    QueueIrrelevant(c, s, d, u, [k]);
    assert d.log[..|s.log|] == d.log[..|t.log|][..|s.log|];
  }

  lemma QueueIrrelevant(c: Pass, s: Sys, d: Sys, u: Sys, killed: seq<Slot>)
    requires Progress(c, s, d, killed) && u == d.(queue := u.queue)
    ensures Progress(c, s, u, killed)
  {
  }

  // ---------------------------------------------------------------- one pool

  lemma {:induction false} HungOfMembers(rs: seq<RunnerStatus>, p: Pool, now: int)
    ensures forall r :: r in HungOf(rs, p, now) <==> r in rs && IsHung(r, p, now)
  {
    if rs != [] {
      HungOfMembers(rs[..|rs| - 1], p, now);
      assert rs == rs[..|rs| - 1] + [rs[|rs| - 1]];
    }
  }

  lemma {:induction false} HungLoopProgress(c: Pass, s: Sys, p: Pool, rs: seq<RunnerStatus>)
    requires Fresh(c.o, s) && WellKeyed(s.fleet) && ClockAdvances(c, s.calls)
    requires NamedReads(c.db)
    requires DistinctSlots(rs) && forall r :: r in rs ==> SlotOf(r) in s.fleet && s.fleet[SlotOf(r)] == r
    ensures var t := HungLoop(c, s, p, rs);
            && Progress(c, s, t, SlotSeq(HungOf(rs, p, c.now)))
            && |s.log| <= |t.log| && t.log[..|s.log|] == s.log
  {
    if rs == [] {
      NoProgress(c, s);
      assert SlotSeq([]) == [];
    } else {
      var n := |rs| - 1;
      var init, r := rs[..n], rs[n];
      assert rs == init + [r];
      HungLoopProgress(c, s, p, init);
      hide Progress, Fresh, WellKeyed, ClockAdvances, KillHung;
      if IsHung(r, p, c.now) {
        HungStep(c, s, p, rs);
      } else {
        assert HungOf(rs, p, c.now) == HungOf(init, p, c.now);
      }
    }
  }

  lemma HungStep(c: Pass, s: Sys, p: Pool, rs: seq<RunnerStatus>)
    requires rs != [] && IsHung(rs[|rs| - 1], p, c.now)
    requires Fresh(c.o, s) && WellKeyed(s.fleet) && ClockAdvances(c, s.calls)
    requires NamedReads(c.db)
    requires DistinctSlots(rs) && forall r :: r in rs ==> SlotOf(r) in s.fleet && s.fleet[SlotOf(r)] == r
    requires var init := rs[..|rs| - 1];
             var t := HungLoop(c, s, p, init);
             && Progress(c, s, t, SlotSeq(HungOf(init, p, c.now)))
             && |s.log| <= |t.log| && t.log[..|s.log|] == s.log
    ensures var u := HungLoop(c, s, p, rs);
            && Progress(c, s, u, SlotSeq(HungOf(rs, p, c.now)))
            && |s.log| <= |u.log| && u.log[..|s.log|] == s.log
  {
    var init, r := rs[..|rs| - 1], rs[|rs| - 1];
    var t := HungLoop(c, s, p, init);
    var killed := SlotSeq(HungOf(init, p, c.now));
    var k := SlotOf(r);
    assert k !in killed by { NotKilledYet(rs, p, c.now); }
    assert r in rs;
    assert k in t.fleet && t.fleet[k] == r;
    var u := KillHung(c, t, k);
    assert HungLoop(c, s, p, rs) == u;
    assert SlotSeq(HungOf(rs, p, c.now)) == killed + [k];
    hide Additions, Removals, Logged, WellKeyed, KillHung, HungLoop, HungOf, SlotSeq, NamedReads, Fresh;
    KillProgress(c, t, k);
    Compose(c, s, t, u, killed, [k]);
    assert u.log[..|s.log|] == u.log[..|t.log|][..|s.log|];
  }

  lemma NotKilledYet(rs: seq<RunnerStatus>, p: Pool, now: int)
    requires rs != [] && DistinctSlots(rs)
    ensures SlotOf(rs[|rs| - 1]) !in SlotSeq(HungOf(rs[..|rs| - 1], p, now))
  {
    var init := rs[..|rs| - 1];
    HungOfMembers(init, p, now);
    var killed := SlotSeq(HungOf(init, p, now));
    forall i | 0 <= i < |killed| ensures killed[i] != SlotOf(rs[|rs| - 1]) {
      var r := HungOf(init, p, now)[i];
      assert r in HungOf(init, p, now);
      assert r in init;
    }
  }

  // ---------------------------------------------------------------- the whole pass

  ghost predicate PassReady(c: Pass, s: Sys, work: seq<Check>) {
    && Fresh(c.o, s) && WellKeyed(s.fleet) && ClockAdvances(c, s.calls)
    && NamedReads(c.db)
    && SnapshotsTaken(c, s, work)
  }

  lemma {:induction false} HungPassProgress(c: Pass, s: Sys, work: seq<Check>)
    requires PassReady(c, s, work)
    ensures var t := HungPass(c, s, work);
            && Progress(c, s, t, Killed(work, c.now))
            && |s.log| <= |t.log| && t.log[..|s.log|] == s.log
  {
    hide Additions, Removals, Terminated, Timeouts, WellKeyed;
    if work == [] {
      NoProgress(c, s);
    } else {
      var n := |work| - 1;
      HungPassProgress(c, s, work[..n]);
      var t := HungPass(c, s, work[..n]);
      HungLoopProgress(c, t, work[n].p, work[n].rs);
      var u := HungLoop(c, t, work[n].p, work[n].rs);
      Compose(c, s, t, u, Killed(work[..n], c.now), SlotSeq(HungOf(work[n].rs, work[n].p, c.now)));
      assert u.log[..|s.log|] == u.log[..|t.log|][..|s.log|];
    }
  }

  /** Each runner removed by the pass was terminated once and got exactly one timeout record (if a
      recorder is set); nothing else was removed; and no runner spawned by the interleaved queue
      drains is among them. */
  lemma HungPassAccounts(c: Pass, s: Sys, work: seq<Check>)
    requires PassReady(c, s, work)
    ensures var t, killed := HungPass(c, s, work), Killed(work, c.now);
            && Distinct(killed)
            && (set k | k in killed) == s.fleet.Keys - t.fleet.Keys
            && Terminated(t.log) == Terminated(s.log) + killed
            && Timeouts(t.log) == Timeouts(s.log) + (if c.recorder then killed else [])
            && (forall i :: |s.log| <= i < |t.log| && t.log[i].Spawn? ==> t.log[i].slot !in killed)
            && (forall k :: k in s.fleet && k !in killed ==> k in t.fleet && t.fleet[k] == s.fleet[k])
  {
    HungPassProgress(c, s, work);
    hide Terminated, Timeouts, Killed, HungPass, SnapshotsTaken;
    var t, killed := HungPass(c, s, work), Killed(work, c.now);
    assert forall k :: k in killed <==> k in s.fleet && k !in t.fleet;
    forall i | |s.log| <= i < |t.log| && t.log[i].Spawn? ensures t.log[i].slot !in killed {
      assert c.o.birth(t.log[i].slot.id) >= s.calls;
    }
  }

  lemma InSlotSeq(rs: seq<RunnerStatus>, r: RunnerStatus)
    requires r in rs
    ensures SlotOf(r) in SlotSeq(rs)
  {
    var i :| 0 <= i < |rs| && rs[i] == r;
    assert SlotSeq(rs)[i] == SlotOf(r);
  }

  /** What was hung in a pool's snapshot is gone when the pool has been checked. */
  lemma HungLoopClears(c: Pass, s: Sys, p: Pool, rs: seq<RunnerStatus>, k: Slot)
    requires PassReady(c, s, []) && Listing(s.fleet, p.name, rs)
    requires k in HungLoop(c, s, p, rs).fleet && k.pool == p.name
    ensures !IsHung(HungLoop(c, s, p, rs).fleet[k], p, c.now)
  {
    HungLoopProgress(c, s, p, rs);
    var r := HungLoop(c, s, p, rs).fleet[k];
    hide Logged, HungLoop, WellKeyed;
    if IsHung(r, p, c.now) {
      assert !IsNew(c, s, HungLoop(c, s, p, rs), k);
      HungOfMembers(rs, p, c.now);
      InSlotSeq(HungOf(rs, p, c.now), r);
    }
  }

  /** After the pass no checked pool tracks a running runner with a known spawn time older than its
      lifetime. */
  lemma NoHungRunnerLeft(c: Pass, s: Sys, work: seq<Check>, i: nat, k: Slot)
    requires PassReady(c, s, work) && i < |work|
    requires k in HungPass(c, s, work).fleet && k.pool == work[i].p.name
    ensures var r, lifetime := HungPass(c, s, work).fleet[k], work[i].p.maxLifetime;
            lifetime > 0 && r.state.Running? && r.spawnedAt != 0 ==> c.now - r.spawnedAt <= lifetime
  {
    hide PassReady, HungPass;
    NobodyHung(c, s, work, i, k);
  }

  lemma {:induction false} NobodyHung(c: Pass, s: Sys, work: seq<Check>, i: nat, k: Slot)
    requires PassReady(c, s, work) && i < |work|
    requires k in HungPass(c, s, work).fleet && k.pool == work[i].p.name
    ensures !IsHung(HungPass(c, s, work).fleet[k], work[i].p, c.now)
  {
    var n := |work| - 1;
    var init := work[..n];
    var t, u := HungPass(c, s, init), HungPass(c, s, work);
    HungPassProgress(c, s, init);
    if i == n {
      HungLoopClears(c, t, work[n].p, work[n].rs, k);
    } else {
      HungLoopProgress(c, t, work[n].p, work[n].rs);
      hide Logged, Removals, HungLoop, WellKeyed;
      if IsHung(u.fleet[k], work[i].p, c.now) {
        assert !IsNew(c, t, u, k);
        NobodyHung(c, s, init, i, k);
      }
    }
  }

  /** The runner is over its pool's age, by some check of that pool. */
  ghost predicate OverAge(r: RunnerStatus, pool: string, work: seq<Check>, now: int) {
    && r.state.Running? && r.spawnedAt != 0
    && exists i :: && 0 <= i < |work| && work[i].p.name == pool
                   && work[i].p.maxLifetime > 0 && now - r.spawnedAt > work[i].p.maxLifetime
  }

  /** Exactly the runners over age are gone after the pass. */
  lemma HungPassExactly(c: Pass, s: Sys, work: seq<Check>, k: Slot)
    requires PassReady(c, s, work) && k in s.fleet
    ensures k !in HungPass(c, s, work).fleet <==>
            && s.fleet[k].state.Running? && s.fleet[k].spawnedAt != 0
            && exists i :: && 0 <= i < |work| && work[i].p.name == k.pool
                           && work[i].p.maxLifetime > 0 && c.now - s.fleet[k].spawnedAt > work[i].p.maxLifetime
  {
    var t := HungPass(c, s, work);
    HungPassAccounts(c, s, work);
    if k !in t.fleet {
      assert k in Killed(work, c.now);
      KilledOverAge(c, s, work, k);
    } else if OverAge(s.fleet[k], k.pool, work, c.now) {
      var i :| && 0 <= i < |work| && work[i].p.name == k.pool
               && work[i].p.maxLifetime > 0 && c.now - s.fleet[k].spawnedAt > work[i].p.maxLifetime;
      NoHungRunnerLeft(c, s, work, i, k);
    }
  }

  lemma {:induction false} KilledOverAge(c: Pass, s: Sys, work: seq<Check>, k: Slot)
    requires PassReady(c, s, work) && k in s.fleet && k in Killed(work, c.now)
    ensures OverAge(s.fleet[k], k.pool, work, c.now)
  {
    var n := |work| - 1;
    var init := work[..n];
    if k in Killed(init, c.now) {
      KilledOverAge(c, s, init, k);
      OverAgeGrows(s.fleet[k], k.pool, work, c.now);
    } else {
      var u := HungPass(c, s, init);
      HungPassProgress(c, s, init);
      HungOfMembers(work[n].rs, work[n].p, c.now);
      var hung := HungOf(work[n].rs, work[n].p, c.now);
      var j :| 0 <= j < |hung| && SlotOf(hung[j]) == k by {
        SlotSeqMember(hung, k);
      }
      assert hung[j] in hung;
      hide Logged, Removals, HungPass, Killed, HungOf;
      assert u.fleet[k] == hung[j];
      assert !IsNew(c, s, u, k);
    }
  }

  lemma SlotSeqMember(rs: seq<RunnerStatus>, k: Slot)
    requires k in SlotSeq(rs)
    ensures exists j :: 0 <= j < |rs| && SlotOf(rs[j]) == k
  {
    var j :| 0 <= j < |rs| && SlotSeq(rs)[j] == k;
    assert SlotOf(rs[j]) == k;
  }

  lemma OverAgeGrows(r: RunnerStatus, pool: string, work: seq<Check>, now: int)
    requires work != [] && OverAge(r, pool, work[..|work| - 1], now)
    ensures OverAge(r, pool, work, now)
  {
    var init := work[..|work| - 1];
    var i :| && 0 <= i < |init| && init[i].p.name == pool
             && init[i].p.maxLifetime > 0 && now - r.spawnedAt > init[i].p.maxLifetime;
    assert work[i] == init[i];
  }
}
