/** internal/orchestrator/auditor.go: the in-memory tracking table and its audit against the
    container engine's live list. */
module Auditor {
  import opened Basics
  import opened Tracking

  datatype AuditReport = AuditReport(
    totalTracked: nat, active: seq<RunnerStatus>, exited: seq<RunnerStatus>,
    adopted: seq<RunnerStatus>, disappeared: seq<string>)

  // ---------------------------------------------------------------- specification

  /** A live status overlays the tracked one, but busy and on-demand marks and a known spawn time
      survive an audit that does not report them. */
  function Overlay(s: RunnerStatus, existing: RunnerStatus): RunnerStatus {
    s.(isBusy := s.isBusy || existing.isBusy,
       onDemand := s.onDemand || existing.onDemand,
       spawnedAt := if s.spawnedAt == 0 then existing.spawnedAt else s.spawnedAt)
  }

  function Absorbed(f: Fleet, s: RunnerStatus): RunnerStatus {
    if SlotOf(s) in f then Overlay(s, f[SlotOf(s)]) else s
  }

  ghost function AbsorbAll(f: Fleet, live: seq<RunnerStatus>): Fleet {
    if live == [] then f
    else
      var g := AbsorbAll(f, live[..|live| - 1]);
      var s := live[|live| - 1];
      g[SlotOf(s) := Absorbed(g, s)]
  }

  ghost function LiveIds(live: seq<RunnerStatus>): set<string> {
    set s | s in live :: s.id
  }

  /** Tracked slots whose container the engine no longer reports. */
  ghost function Gone(f: Fleet, live: seq<RunnerStatus>): set<Slot> {
    set k | k in f && k.id !in LiveIds(live)
  }

  ghost function AuditFleet(f: Fleet, live: seq<RunnerStatus>): Fleet {
    AbsorbAll(f, live) - Gone(f, live)
  }

  ghost function Adopted(f: Fleet, live: seq<RunnerStatus>): seq<RunnerStatus> {
    if live == [] then []
    else
      var n := |live| - 1;
      Adopted(f, live[..n]) +
      (if SlotOf(live[n]) in AbsorbAll(f, live[..n]) then [] else [live[n]])
  }

  /** The live list with every status overlaid on what was tracked when it was met. */
  ghost function Overlaid(f: Fleet, live: seq<RunnerStatus>): (out: seq<RunnerStatus>)
    ensures |out| == |live|
    ensures forall i :: 0 <= i < |live| ==>
                          SlotOf(out[i]) == SlotOf(live[i]) && out[i].state == live[i].state
  {
    if live == [] then []
    else
      var n := |live| - 1;
      Overlaid(f, live[..n]) + [Absorbed(AbsorbAll(f, live[..n]), live[n])]
  }

  function ExitedOf(rs: seq<RunnerStatus>): seq<RunnerStatus> {
    if rs == [] then []
    else
      var n := |rs| - 1;
      ExitedOf(rs[..n]) + (if rs[n].state.Running? then [] else [rs[n]])
  }

  // ---------------------------------------------------------------- closed form of an audit

  ghost predicate Occurs(live: seq<RunnerStatus>, k: Slot) {
    exists s :: s in live && SlotOf(s) == k
  }

  ghost function LastReport(live: seq<RunnerStatus>, k: Slot): RunnerStatus
    requires Occurs(live, k)
  {
    var n := |live| - 1;
    if SlotOf(live[n]) == k then live[n]
    else
      assert live == live[..n] + [live[n]];
      LastReport(live[..n], k)
  }

  /** The last non-zero spawn time reported for `k`, or 0. */
  ghost function LastStamp(live: seq<RunnerStatus>, k: Slot): int {
    if live == [] then 0
    else
      var n := |live| - 1;
      if SlotOf(live[n]) == k && live[n].spawnedAt != 0 then live[n].spawnedAt
      else LastStamp(live[..n], k)
  }

  ghost predicate ReportedBusy(live: seq<RunnerStatus>, k: Slot) {
    exists s :: s in live && SlotOf(s) == k && s.isBusy
  }

  ghost predicate ReportedOnDemand(live: seq<RunnerStatus>, k: Slot) {
    exists s :: s in live && SlotOf(s) == k && s.onDemand
  }

  /** What an audit leaves at slot `k`, said without folding over the list. */
  ghost function AuditedStatus(f: Fleet, live: seq<RunnerStatus>, k: Slot): RunnerStatus
    requires Occurs(live, k)
  {
    LastReport(live, k).(
    isBusy := ReportedBusy(live, k) || (k in f && f[k].isBusy),
    onDemand := ReportedOnDemand(live, k) || (k in f && f[k].onDemand),
    spawnedAt := if LastStamp(live, k) != 0 then LastStamp(live, k)
                 else if k in f then f[k].spawnedAt else 0)
  }

  lemma {:induction false} AbsorbAllAt(f: Fleet, live: seq<RunnerStatus>, k: Slot)
    ensures k in AbsorbAll(f, live) <==> k in f || Occurs(live, k)
    ensures Occurs(live, k) ==> AbsorbAll(f, live)[k] == AuditedStatus(f, live, k)
    ensures k in f && !Occurs(live, k) ==> AbsorbAll(f, live)[k] == f[k]
  {
    if live != [] {
      var n := |live| - 1;
      var init, s := live[..n], live[n];
      assert live == init + [s];
      AbsorbAllAt(f, init, k);
      ReportsGrow(init, s, k);
      var g := AbsorbAll(f, init);
      assert AbsorbAll(f, live) == g[SlotOf(s) := Absorbed(g, s)];
      if SlotOf(s) == k {
        assert LastReport(live, k) == s;
        if !Occurs(init, k) {
          NoStamp(init, k);
        }
      }
    }
  }

  lemma ReportsGrow(init: seq<RunnerStatus>, s: RunnerStatus, k: Slot)
    ensures Occurs(init + [s], k) <==> Occurs(init, k) || SlotOf(s) == k
    ensures ReportedBusy(init + [s], k) <==> ReportedBusy(init, k) || (SlotOf(s) == k && s.isBusy)
    ensures ReportedOnDemand(init + [s], k) <==>
            ReportedOnDemand(init, k) || (SlotOf(s) == k && s.onDemand)
  {
    var live := init + [s];
    assert live[|init|] == s;
    assert forall r :: r in live <==> r in init || r == s;
  }

  lemma {:induction false} NoStamp(live: seq<RunnerStatus>, k: Slot)
    requires !Occurs(live, k)
    ensures LastStamp(live, k) == 0
  {
    if live != [] {
      var n := |live| - 1;
      assert live == live[..n] + [live[n]];
      assert live[n] in live;
      NoStamp(live[..n], k);
    }
  }

  /** After an audit the tracked pairs are the reported ones and the previously tracked ones whose
      id is still alive; so the tracked ids are exactly the live ids.  Each surviving entry keeps a
      busy or on-demand mark it had, and a known spawn time. */
  lemma AuditTracksLive(f: Fleet, live: seq<RunnerStatus>)
    requires WellKeyed(f)
    ensures WellKeyed(AuditFleet(f, live))
    ensures forall k :: k in AuditFleet(f, live) <==>
                        Occurs(live, k) || (k in f && k.id in LiveIds(live))
    ensures (set k | k in AuditFleet(f, live) :: k.id) == LiveIds(live)
    ensures forall k :: k in f && k in AuditFleet(f, live) ==>
                          && (f[k].isBusy ==> AuditFleet(f, live)[k].isBusy)
                          && (f[k].onDemand ==> AuditFleet(f, live)[k].onDemand)
                          && (f[k].spawnedAt != 0 ==> AuditFleet(f, live)[k].spawnedAt != 0)
    ensures forall k :: Occurs(live, k) ==>
                          k in AuditFleet(f, live) && AuditFleet(f, live)[k] == AuditedStatus(f, live, k)
  {
    var g := AuditFleet(f, live);
    forall k
      ensures k in g <==> Occurs(live, k) || (k in f && k.id in LiveIds(live))
      ensures Occurs(live, k) ==> k in g && g[k] == AuditedStatus(f, live, k) && SlotOf(g[k]) == k
      ensures k in g && !Occurs(live, k) ==> k in f && g[k] == f[k]
    {
      AbsorbAllAt(f, live, k);
      if Occurs(live, k) {
        LastReportSlot(live, k);
      }
    }
    forall id | id in LiveIds(live) ensures exists k :: k in g && k.id == id {
      var s :| s in live && s.id == id;
      assert Occurs(live, SlotOf(s));
      assert SlotOf(s) in g;
    }
    forall k | k in g ensures k.id in LiveIds(live) {
      if Occurs(live, k) {
        var s :| s in live && SlotOf(s) == k;
      }
    }
  }

  lemma {:induction false} LastReportSlot(live: seq<RunnerStatus>, k: Slot)
    requires Occurs(live, k)
    ensures LastReport(live, k) in live && SlotOf(LastReport(live, k)) == k
  {
    var n := |live| - 1;
    assert live == live[..n] + [live[n]];
    if SlotOf(live[n]) != k {
      LastReportSlot(live[..n], k);
    }
  }

  /** The book-keeping balances: pairs after = pairs before + adopted - disappeared. */
  lemma AuditBalance(f: Fleet, live: seq<RunnerStatus>)
    ensures |AuditFleet(f, live)| == |f| + |Adopted(f, live)| - |Gone(f, live)|
  {
    AbsorbAllSize(f, live);
    var g := AbsorbAll(f, live);
    assert Gone(f, live) <= g.Keys by {
      forall k | k in Gone(f, live) ensures k in g { AbsorbAllAt(f, live, k); }
    }
    assert (g - Gone(f, live)).Keys == g.Keys - Gone(f, live);
  }

  lemma {:induction false} AbsorbAllSize(f: Fleet, live: seq<RunnerStatus>)
    ensures |AbsorbAll(f, live)| == |f| + |Adopted(f, live)|
  {
    if live != [] {
      var n := |live| - 1;
      AbsorbAllSize(f, live[..n]);
      var g := AbsorbAll(f, live[..n]);
      var h := AbsorbAll(f, live);
      assert h.Keys == g.Keys + {SlotOf(live[n])};
      InsertSize(g.Keys, SlotOf(live[n]));
      if SlotOf(live[n]) in g {
        assert h.Keys == g.Keys;
      }
    }
  }

  /** Active and Exited split the live list: together they hold every reported status once, and a
      status is Active exactly when the engine reports it running. */
  lemma {:induction false} AuditPartition(f: Fleet, live: seq<RunnerStatus>)
    ensures multiset(RunningOf(Overlaid(f, live))) + multiset(ExitedOf(Overlaid(f, live)))
         == multiset(Overlaid(f, live))
    ensures |RunningOf(Overlaid(f, live))| + |ExitedOf(Overlaid(f, live))| == |live|
  {
    Split(Overlaid(f, live));
  }

  /** Each status in the report is what the table held once the list had been read up to it. */
  lemma OverlaidAt(f: Fleet, live: seq<RunnerStatus>, i: nat)
    requires i < |live|
    ensures Occurs(live[..i + 1], SlotOf(live[i]))
    ensures Overlaid(f, live)[i] == AuditedStatus(f, live[..i + 1], SlotOf(live[i]))
  {
    var upTo := live[..i + 1];
    assert upTo[i] in upTo;
    OverlaidIndex(f, live, i);
    assert upTo[..i] == live[..i];
    AbsorbAllAt(f, upTo, SlotOf(live[i]));
    assert AbsorbAll(f, upTo)[SlotOf(live[i])] == Absorbed(AbsorbAll(f, live[..i]), live[i]);
    hide AbsorbAll, Absorbed, AuditedStatus, Overlaid;
  }

  lemma {:induction false} OverlaidIndex(f: Fleet, live: seq<RunnerStatus>, i: nat)
    requires i < |live|
    ensures Overlaid(f, live)[i] == Absorbed(AbsorbAll(f, live[..i]), live[i])
    decreases |live|
  {
    hide AbsorbAll, Absorbed;
    var n := |live| - 1;
    if i < n {
      OverlaidIndex(f, live[..n], i);
      assert live[..n][..i] == live[..i];
    }
  }

  /** Adopted are exactly the reported slots that were not tracked, each once. */
  lemma {:induction false} AdoptedExactly(f: Fleet, live: seq<RunnerStatus>)
    ensures forall r :: r in Adopted(f, live) ==> r in live && SlotOf(r) !in f
    ensures forall k :: Occurs(live, k) && k !in f ==> Occurs(Adopted(f, live), k)
    ensures DistinctSlots(Adopted(f, live))
  {
    if live != [] {
      var n := |live| - 1;
      var init, s := live[..n], live[n];
      assert live == init + [s];
      AdoptedExactly(f, init);
      AbsorbAllAt(f, init, SlotOf(s));
      var before := Adopted(f, init);
      hide AbsorbAll;
      if SlotOf(s) in AbsorbAll(f, init) {
        assert Adopted(f, live) == before;
        forall k | Occurs(live, k) && k !in f ensures Occurs(before, k) {
          assert Occurs(init, k);
        }
      } else {
        var after := before + [s];
        assert Adopted(f, live) == after;
        AdoptedGrows(f, init, before, s);
      }
    }
  }

  lemma AdoptedGrows(f: Fleet, init: seq<RunnerStatus>, before: seq<RunnerStatus>, s: RunnerStatus)
    requires !Occurs(init, SlotOf(s)) && DistinctSlots(before)
    requires forall r :: r in before ==> r in init
    requires forall k :: Occurs(init, k) && k !in f ==> Occurs(before, k)
    ensures DistinctSlots(before + [s])
    ensures forall k :: Occurs(init + [s], k) && k !in f ==> Occurs(before + [s], k)
  {
    var after := before + [s];
    assert after[|before|] == s;
    forall i | 0 <= i < |before| ensures SlotOf(before[i]) != SlotOf(s) {
      assert before[i] in before;
    }
    forall k | Occurs(init + [s], k) && k !in f ensures Occurs(after, k) {
      if k == SlotOf(s) {
        assert s in after;
      } else {
        assert Occurs(init, k);
        var r :| r in before && SlotOf(r) == k;
        assert r in after;
      }
    }
  }

  lemma {:induction false} ExitedOfMembers(rs: seq<RunnerStatus>)
    ensures forall r :: r in ExitedOf(rs) <==> r in rs && !r.state.Running?
  {
    if rs != [] {
      ExitedOfMembers(rs[..|rs| - 1]);
      assert rs == rs[..|rs| - 1] + [rs[|rs| - 1]];
    }
  }

  lemma {:induction false} Split(rs: seq<RunnerStatus>)
    ensures multiset(RunningOf(rs)) + multiset(ExitedOf(rs)) == multiset(rs)
    ensures |RunningOf(rs)| + |ExitedOf(rs)| == |rs|
  {
    if rs != [] {
      var init, r := rs[..|rs| - 1], rs[|rs| - 1];
      Split(init);
      assert rs == init + [r];
      FilterSnoc(init, r);
      SplitStep(RunningOf(init), ExitedOf(init), init, r);
    }
  }

  lemma SplitStep(a: seq<RunnerStatus>, b: seq<RunnerStatus>, init: seq<RunnerStatus>, r: RunnerStatus)
    requires multiset(a) + multiset(b) == multiset(init)
    ensures multiset(a + [r]) + multiset(b) == multiset(init + [r])
    ensures multiset(a) + multiset(b + [r]) == multiset(init + [r])
  {
    BagSnoc(a, r);
    BagSnoc(b, r);
    BagSnoc(init, r);
  }

  /** Auditing the same live list again adopts nothing, drops nothing and changes nothing, even
      when the list names a container more than once. */
  lemma AuditTwice(f: Fleet, live: seq<RunnerStatus>)
    requires WellKeyed(f)
    ensures AuditFleet(AuditFleet(f, live), live) == AuditFleet(f, live)
    ensures Adopted(AuditFleet(f, live), live) == []
    ensures Gone(AuditFleet(f, live), live) == {}
  {
    var g := AuditFleet(f, live);
    AuditTracksLive(f, live);
    AuditTracksLive(g, live);
    var h := AuditFleet(g, live);
    assert h.Keys == g.Keys;
    forall k | k in g ensures h[k] == g[k] {
      AbsorbAllAt(f, live, k);
      AbsorbAllAt(g, live, k);
    }
    assert h == g;
    AuditBalance(g, live);
  }

  // ---------------------------------------------------------------- nested map versus flat view

  type Tracked = map<string, map<string, RunnerStatus>>

  predicate Answers(r: RunnerStatus, nameOrId: string) {
    r.id == nameOrId || r.name == nameOrId
  }

  ghost predicate Agrees(t: Tracked, f: Fleet) {
    && (forall k :: k in f ==> k.pool in t && k.id in t[k.pool] && t[k.pool][k.id] == f[k])
    && (forall p, id :: p in t && id in t[p] ==> Slot(p, id) in f)
  }

  function PoolOf(t: Tracked, pool: string): map<string, RunnerStatus> {
    if pool in t then t[pool] else map[]
  }

  lemma AgreesIn(t: Tracked, f: Fleet, pool: string, id: string)
    requires Agrees(t, f) && pool in t && id in t[pool]
    ensures Slot(pool, id) in f && f[Slot(pool, id)] == t[pool][id]
  {
  }

  lemma AgreesSet(t: Tracked, f: Fleet, pool: string, id: string, r: RunnerStatus)
    requires Agrees(t, f)
    ensures Agrees(t[pool := PoolOf(t, pool)[id := r]], f[Slot(pool, id) := r])
  {
  }

  lemma AgreesDrop(t: Tracked, f: Fleet, pool: string, id: string)
    requires Agrees(t, f) && pool in t
    ensures Agrees(t[pool := t[pool] - {id}], f - {Slot(pool, id)})
  {
  }

  lemma AgreesTidy(t: Tracked, f: Fleet, pool: string)
    requires Agrees(t, f) && pool in t && |t[pool]| == 0
    ensures Agrees(t - {pool}, f)
  {
    assert t[pool] == map[];
  }

  ghost function PoolSlots(t: Tracked, pool: string): set<Slot> {
    set id | id in PoolOf(t, pool) :: Slot(pool, id)
  }

  lemma PoolSlotsSize(t: Tracked, pool: string)
    ensures |PoolSlots(t, pool)| == |PoolOf(t, pool)|
  {
    SlotSetSize(pool, PoolOf(t, pool).Keys);
    assert PoolSlots(t, pool) == set id | id in PoolOf(t, pool).Keys :: Slot(pool, id);
  }

  lemma PoolSlotsIn(t: Tracked, f: Fleet, pool: string)
    requires Agrees(t, f) && pool in t
    ensures forall k :: k in PoolSlots(t, pool) <==> k in f && k.pool == pool
  {
  }

  lemma {:induction false} SlotSetSize(pool: string, ids: set<string>)
    ensures |set id | id in ids :: Slot(pool, id)| == |ids|
  {
    var all := set id | id in ids :: Slot(pool, id);
    if ids == {} {
      assert all == {};
    } else {
      var x :| x in ids;
      SlotSetSize(pool, ids - {x});
      assert all == (set id | id in ids - {x} :: Slot(pool, id)) + {Slot(pool, x)};
    }
  }

  // ---------------------------------------------------------------- the tracking table

  class Reconciler {
    var tracked: Tracked
    /** The flat view of `tracked`. */
    ghost var fleet: Fleet

    ghost predicate Valid()
      reads this
    {
      WellKeyed(fleet) && Agrees(tracked, fleet)
    }

    constructor ()
      ensures Valid() && fleet == map[]
    {
      tracked, fleet := map[], map[];
    }

    method TrackRunner(status: RunnerStatus)
      requires Valid()
      modifies this
      ensures Valid()
      ensures fleet == old(fleet)[SlotOf(status) := status]
    {
      AgreesSet(tracked, fleet, status.poolName, status.id, status);
      tracked := tracked[status.poolName := PoolOf(tracked, status.poolName)[status.id := status]];
      fleet := fleet[SlotOf(status) := status];
    }

    method UntrackRunner(pool: string, id: string)
      requires Valid()
      modifies this
      ensures Valid()
      ensures fleet == old(fleet) - {Slot(pool, id)}
    {
      if pool in tracked {
        AgreesDrop(tracked, fleet, pool, id);
        tracked := tracked[pool := tracked[pool] - {id}];
        fleet := fleet - {Slot(pool, id)};
        if |tracked[pool]| == 0 {
          AgreesTidy(tracked, fleet, pool);
          tracked := tracked - {pool};
        }
      }
    }

    /** The first entry met whose id or name matches gets the new busy mark; nothing else moves. */
    method MarkRunnerBusy(nameOrId: string, busy: bool) returns (ghost hit: seq<Slot>)
      requires Valid()
      modifies this
      ensures Valid()
      ensures hit == [] ==>
                fleet == old(fleet) && forall k :: k in fleet ==> fleet[k].id != nameOrId && fleet[k].name != nameOrId
      ensures hit != [] ==>
                && hit[0] in old(fleet)
                && (old(fleet)[hit[0]].id == nameOrId || old(fleet)[hit[0]].name == nameOrId)
                && fleet == old(fleet)[hit[0] := old(fleet)[hit[0]].(isBusy := busy)]
    {
      var found := FindRunner(nameOrId);
      hit := found;
      if found != [] {
        var Slot(p, id) := found[0];
        var status := tracked[p][id].(isBusy := busy);
        AgreesSet(tracked, fleet, p, id, status);
        tracked := tracked[p := tracked[p][id := status]];
        fleet := fleet[Slot(p, id) := status];
      }
    }

    method FindRunner(nameOrId: string) returns (hit: seq<Slot>)
      requires Valid()
      ensures |hit| <= 1
      ensures hit == [] ==> forall k :: k in fleet ==> !Answers(fleet[k], nameOrId)
      ensures hit != [] ==> hit[0] in fleet && Answers(fleet[hit[0]], nameOrId)
    {
      hit := [];
      var pools := tracked.Keys;
      while pools != {}
        invariant pools <= tracked.Keys
        invariant forall k :: k in fleet && k.pool !in pools ==> !Answers(fleet[k], nameOrId)
        decreases pools
      {
        var p :| p in pools;
        var ids := tracked[p].Keys;
        while ids != {}
          invariant ids <= tracked[p].Keys
          invariant forall k :: k in fleet && k.pool == p && k.id !in ids ==> !Answers(fleet[k], nameOrId)
          decreases ids
        {
          var id :| id in ids;
          assert fleet[Slot(p, id)] == tracked[p][id];
          if Answers(tracked[p][id], nameOrId) {
            return [Slot(p, id)];
          }
          ids := ids - {id};
        }
        pools := pools - {p};
      }
    }

    method TrackedPoolRunners(pool: string) returns (runners: seq<RunnerStatus>)
      requires Valid()
      ensures Listing(fleet, pool, runners)
    {
      runners := [];
      if pool !in tracked {
        return;
      }
      var ids := tracked[pool].Keys;
      while ids != {}
        invariant ids <= tracked[pool].Keys
        invariant DistinctSlots(runners)
        invariant forall r :: r in runners ==> r.poolName == pool && SlotOf(r) in fleet &&
                                               fleet[SlotOf(r)] == r && r.id !in ids
        invariant forall k :: k in fleet && k.pool == pool && k.id !in ids ==> fleet[k] in runners
        decreases ids
      {
        var id :| id in ids;
        var r := tracked[pool][id];
        assert fleet[Slot(pool, id)] == r;
        runners := runners + [r];
        ids := ids - {id};
      }
    }

    /** Counts the running containers of all pools by walking the nested map. */
    method TotalRunning() returns (count: nat)
      requires Valid()
      ensures count == Total(fleet)
    {
      count := 0;
      var pools := tracked.Keys;
      ghost var seen: set<Slot> := {};
      while pools != {}
        invariant pools <= tracked.Keys
        invariant forall k :: k in seen <==> k in RunningSlots(fleet) && k.pool !in pools
        invariant count == |seen|
        decreases pools
      {
        var p :| p in pools;
        var n := PoolRunning(p);
        assert seen !! RunningIn(fleet, p);
        seen := seen + RunningIn(fleet, p);
        count := count + n;
        pools := pools - {p};
      }
      assert seen == RunningSlots(fleet);
    }

    method PoolRunning(pool: string) returns (count: nat)
      requires Valid() && pool in tracked
      ensures count == Count(fleet, pool)
    {
      count := 0;
      var ids := tracked[pool].Keys;
      ghost var seen: set<Slot> := {};
      while ids != {}
        invariant ids <= tracked[pool].Keys
        invariant forall k :: k in seen <==> k in RunningIn(fleet, pool) && k.id !in ids
        invariant count == |seen|
        decreases ids
      {
        var id :| id in ids;
        assert fleet[Slot(pool, id)] == tracked[pool][id];
        if tracked[pool][id].state.Running? {
          count := count + 1;
          InsertSize(seen, Slot(pool, id));
          seen := seen + {Slot(pool, id)};
        }
        ids := ids - {id};
      }
      assert seen == RunningIn(fleet, pool);
    }

    method Audit(live: seq<RunnerStatus>) returns (report: AuditReport, ghost gone: seq<Slot>)
      requires Valid()
      modifies this
      ensures Valid()
      ensures fleet == AuditFleet(old(fleet), live)
      ensures report.adopted == Adopted(old(fleet), live)
      ensures report.active == RunningOf(Overlaid(old(fleet), live))
      ensures report.exited == ExitedOf(Overlaid(old(fleet), live))
      // Disappeared lists the ids of the dropped pairs, one per pair.
      ensures Lists(gone, Gone(old(fleet), live)) && |report.disappeared| == |gone|
      ensures forall i :: 0 <= i < |gone| ==> report.disappeared[i] == gone[i].id
      ensures report.totalTracked == |fleet|
    {
      hide AbsorbAll, Adopted, Overlaid, RunningOf, ExitedOf, Picked, Gone, LiveIds, Agrees, Lists, AuditedStatus;
      ghost var f := fleet;
      var liveIds, adopted, active, exited := AbsorbLive(live);
      var dropped := DropPicked(NotIn(liveIds), true);
      gone := dropped;
      PickedGone(f, live);
      AuditTracksLive(f, live);
      var total := CountTracked();
      report := AuditReport(total, active, exited, adopted, IdsOf(dropped));
    }

    method AbsorbLive(live: seq<RunnerStatus>)
      returns (liveIds: set<string>, adopted: seq<RunnerStatus>,
               active: seq<RunnerStatus>, exited: seq<RunnerStatus>)
      requires Agrees(tracked, fleet)
      modifies this
      ensures Agrees(tracked, fleet) && fleet == AbsorbAll(old(fleet), live) && liveIds == LiveIds(live)
      ensures adopted == Adopted(old(fleet), live)
      ensures active == RunningOf(Overlaid(old(fleet), live))
      ensures exited == ExitedOf(Overlaid(old(fleet), live))
    {
      liveIds, adopted, active, exited := {}, [], [], [];
      ghost var f := fleet;
      for i := 0 to |live|
        invariant Agrees(tracked, fleet)
        invariant fleet == AbsorbAll(f, live[..i]) && liveIds == LiveIds(live[..i])
        invariant adopted == Adopted(f, live[..i])
        invariant active == RunningOf(Overlaid(f, live[..i]))
        invariant exited == ExitedOf(Overlaid(f, live[..i]))
      {
        AbsorbStep(f, live, i);
        ReportStep(f, live, i);
        liveIds := liveIds + {live[i].id};
        var s, isNew := AbsorbOne(live[i]);
        if isNew {
          adopted := adopted + [live[i]];
        }
        if s.state.Running? {
          active := active + [s];
        } else {
          exited := exited + [s];
        }
      }
      assert live[..|live|] == live;
    }

    method AbsorbOne(report: RunnerStatus) returns (s: RunnerStatus, isNew: bool)
      requires Agrees(tracked, fleet)
      modifies this
      ensures Agrees(tracked, fleet)
      ensures s == Absorbed(old(fleet), report) && isNew == (SlotOf(report) !in old(fleet))
      ensures fleet == old(fleet)[SlotOf(report) := s]
    {
      s := report;
      var poolMap := PoolOf(tracked, s.poolName);
      isNew := s.id !in poolMap;
      if !isNew {
        var existing := poolMap[s.id];
        if !s.isBusy && existing.isBusy {
          s := s.(isBusy := existing.isBusy);
        }
        if s.spawnedAt == 0 && existing.spawnedAt != 0 {
          s := s.(spawnedAt := existing.spawnedAt);
        }
        if !s.onDemand && existing.onDemand {
          s := s.(onDemand := existing.onDemand);
        }
      }
      AgreesSet(tracked, fleet, s.poolName, s.id, s);
      tracked := tracked[s.poolName := poolMap[s.id := s]];
      fleet := fleet[SlotOf(s) := s];
    }

    method DropOne(p: string, id: string)
      requires Agrees(tracked, fleet) && p in tracked
      modifies this
      ensures Agrees(tracked, fleet) && fleet == old(fleet) - {Slot(p, id)}
      ensures tracked.Keys == old(tracked).Keys && tracked[p].Keys == old(tracked)[p].Keys - {id}
    {
      AgreesDrop(tracked, fleet, p, id);
      tracked := tracked[p := tracked[p] - {id}];
      fleet := fleet - {Slot(p, id)};
    }

    /** Walks the table and forgets the entries `pick` selects; `tidy` also drops pool maps left
        empty.  Audit does this for missing containers, a shutdown for idle or all running ones. */
    method DropPicked(pick: Pick, tidy: bool) returns (order: seq<Slot>)
      requires Agrees(tracked, fleet)
      modifies this
      ensures Agrees(tracked, fleet)
      ensures Lists(order, Picked(old(fleet), pick)) && fleet == old(fleet) - Picked(old(fleet), pick)
    {
      hide Agrees, Lists, Picks;
      order := [];
      ghost var f := fleet;
      ghost var out: set<Slot> := {};
      var pools := tracked.Keys;
      PickStart(tracked, f, pick);
      while pools != {}
        invariant Agrees(tracked, fleet) && pools <= tracked.Keys
        invariant out == PickedOutside(f, pick, pools) && fleet == f - out && Lists(order, out)
        decreases pools
      {
        var p :| p in pools;
        ghost var here := PickedIn(fleet, pick, p);
        var more := DropPickedIn(p, pick);
        PickStep(f, pick, pools, p);
        ListsAppend(order, out, more, here);
        MinusTwice(f, out, here);
        order, out := order + more, out + here;
        if tidy && |tracked[p]| == 0 {
          AgreesTidy(tracked, fleet, p);
          tracked := tracked - {p};
        }
        pools := pools - {p};
      }
      assert out == Picked(f, pick);
    }

    method DropPickedIn(p: string, pick: Pick) returns (order: seq<Slot>)
      requires Agrees(tracked, fleet) && p in tracked
      modifies this
      ensures Agrees(tracked, fleet) && tracked.Keys == old(tracked).Keys
      ensures Lists(order, PickedIn(old(fleet), pick, p)) && fleet == old(fleet) - PickedIn(old(fleet), pick, p)
    {
      hide Agrees, Lists, Picks;
      order := [];
      ghost var f := fleet;
      ghost var out: set<Slot> := {};
      var ids := tracked[p].Keys;
      PickStart(tracked, f, pick);
      PickInStart(tracked, f, pick, p);
      while ids != {}
        invariant Agrees(tracked, fleet) && tracked.Keys == old(tracked).Keys && ids <= tracked[p].Keys
        invariant out == PickedAmong(f, pick, p, ids) && fleet == f - out && Lists(order, out)
        decreases ids
      {
        var id :| id in ids;
        AgreesIn(tracked, fleet, p, id);
        PickInStep(f, pick, p, ids, id);
        if Picks(pick, id, tracked[p][id]) {
          DropOne(p, id);
          ListsSnoc(order, out, Slot(p, id));
          MinusTwice(f, out, {Slot(p, id)});
          order, out := order + [Slot(p, id)], out + {Slot(p, id)};
        }
        ids := ids - {id};
      }
      assert out == PickedIn(f, pick, p);
    }

    method CountTracked() returns (total: nat)
      requires Agrees(tracked, fleet)
      ensures total == |fleet|
    {
      total := 0;
      var pools := tracked.Keys;
      ghost var seen: set<Slot> := {};
      while pools != {}
        invariant pools <= tracked.Keys
        invariant forall k :: k in seen <==> k in fleet && k.pool !in pools
        invariant total == |seen|
        decreases pools
      {
        var p :| p in pools;
        PoolSlotsSize(tracked, p);
        PoolSlotsIn(tracked, fleet, p);
        hide PoolSlots;
        assert seen !! PoolSlots(tracked, p);
        seen := seen + PoolSlots(tracked, p);
        total := total + |tracked[p]|;
        pools := pools - {p};
      }
      assert seen == fleet.Keys;
    }
  }

  // One iteration of the audit's first loop, as it shows in the specification.

  lemma PickedGone(f: Fleet, live: seq<RunnerStatus>)
    ensures Picked(AbsorbAll(f, live), NotIn(LiveIds(live))) == Gone(f, live)
  {
    forall k ensures k in Picked(AbsorbAll(f, live), NotIn(LiveIds(live))) <==> k in Gone(f, live) {
      AbsorbAllAt(f, live, k);
    }
  }

  lemma AbsorbStep(f: Fleet, live: seq<RunnerStatus>, i: nat)
    requires i < |live|
    ensures AbsorbAll(f, live[..i + 1]) ==
            AbsorbAll(f, live[..i])[SlotOf(live[i]) := Absorbed(AbsorbAll(f, live[..i]), live[i])]
    ensures LiveIds(live[..i + 1]) == LiveIds(live[..i]) + {live[i].id}
    ensures Adopted(f, live[..i + 1]) ==
            Adopted(f, live[..i]) + (if SlotOf(live[i]) in AbsorbAll(f, live[..i]) then [] else [live[i]])
  {
    assert live[..i + 1][..i] == live[..i];
    assert live[..i + 1] == live[..i] + [live[i]];
  }

  lemma ReportStep(f: Fleet, live: seq<RunnerStatus>, i: nat)
    requires i < |live|
    ensures var s := Absorbed(AbsorbAll(f, live[..i]), live[i]);
            && RunningOf(Overlaid(f, live[..i + 1])) ==
               RunningOf(Overlaid(f, live[..i])) + (if s.state.Running? then [s] else [])
            && ExitedOf(Overlaid(f, live[..i + 1])) ==
               ExitedOf(Overlaid(f, live[..i])) + (if s.state.Running? then [] else [s])
  {
    assert live[..i + 1][..i] == live[..i];
    var s := Absorbed(AbsorbAll(f, live[..i]), live[i]);
    assert Overlaid(f, live[..i + 1]) == Overlaid(f, live[..i]) + [s];
    FilterSnoc(Overlaid(f, live[..i]), s);
  }

  lemma FilterSnoc(rs: seq<RunnerStatus>, s: RunnerStatus)
    ensures s.state.Running? ==> RunningOf(rs + [s]) == RunningOf(rs) + [s] && ExitedOf(rs + [s]) == ExitedOf(rs)
    ensures !s.state.Running? ==> RunningOf(rs + [s]) == RunningOf(rs) && ExitedOf(rs + [s]) == ExitedOf(rs) + [s]
  {
    assert (rs + [s])[..|rs|] == rs;
  }

  // ---------------------------------------------------------------- walking the table

  function IdsOf(slots: seq<Slot>): seq<string> {
    seq(|slots|, i requires 0 <= i < |slots| => slots[i].id)
  }

  /** Which entries a walk drops: those whose container is not alive, the idle, or all running. */
  datatype Pick = NotIn(liveIds: set<string>) | IdleOnly | AnyRunning

  predicate Picks(pick: Pick, id: string, r: RunnerStatus) {
    match pick
    case NotIn(liveIds) => id !in liveIds
    case IdleOnly => r.state.Running? && !r.isBusy
    case AnyRunning => r.state.Running?
  }

  ghost function Picked(f: Fleet, pick: Pick): set<Slot> {
    set k | k in f && Picks(pick, k.id, f[k])
  }

  ghost function PickedOutside(f: Fleet, pick: Pick, pools: set<string>): set<Slot> {
    set k | k in f && Picks(pick, k.id, f[k]) && k.pool !in pools
  }

  ghost function PickedIn(f: Fleet, pick: Pick, pool: string): set<Slot> {
    set k | k in f && Picks(pick, k.id, f[k]) && k.pool == pool
  }

  ghost function PickedAmong(f: Fleet, pick: Pick, pool: string, ids: set<string>): set<Slot> {
    set k | k in f && Picks(pick, k.id, f[k]) && k.pool == pool && k.id !in ids
  }

  lemma PickStart(t: Tracked, f: Fleet, pick: Pick)
    requires Agrees(t, f)
    ensures PickedOutside(f, pick, t.Keys) == {} && Lists<Slot>([], {}) && f - {} == f
  {
  }

  lemma PickInStart(t: Tracked, f: Fleet, pick: Pick, p: string)
    requires Agrees(t, f) && p in t
    ensures PickedAmong(f, pick, p, t[p].Keys) == {}
  {
  }

  lemma PickStep(f: Fleet, pick: Pick, pools: set<string>, p: string)
    requires p in pools
    ensures var out := PickedOutside(f, pick, pools);
            && PickedIn(f - out, pick, p) !! out
            && PickedOutside(f, pick, pools - {p}) == out + PickedIn(f - out, pick, p)
  {
    hide Picks;
  }

  lemma PickInStep(f: Fleet, pick: Pick, p: string, ids: set<string>, id: string)
    requires id in ids && Slot(p, id) in f
    ensures PickedAmong(f, pick, p, ids - {id}) ==
            PickedAmong(f, pick, p, ids) + (if Picks(pick, id, f[Slot(p, id)]) then {Slot(p, id)} else {})
    ensures Slot(p, id) !in PickedAmong(f, pick, p, ids)
  {
    hide Picks;
  }

  lemma MinusTwice(f: Fleet, a: set<Slot>, b: set<Slot>)
    ensures f - a - b == f - (a + b)
  {
  }

  lemma ListsAppend(a: seq<Slot>, sa: set<Slot>, b: seq<Slot>, sb: set<Slot>)
    requires Lists(a, sa) && Lists(b, sb) && sa !! sb
    ensures Lists(a + b, sa + sb)
  {
    var c := a + b;
    forall i, j | 0 <= i < j < |c| ensures c[i] != c[j] {
      if i < |a| <= j {
        assert c[i] in a && c[j] in b;
      }
    }
  }

  lemma ListsSnoc(a: seq<Slot>, sa: set<Slot>, k: Slot)
    requires Lists(a, sa) && k !in sa
    ensures Lists(a + [k], sa + {k})
  {
    ListsAppend(a, sa, [k], {k});
  }
}
