/** How large reconcilePoolWithProvider makes a pool, whom it terminates and what it spawns, said without its
    own helper functions (internal/orchestrator/controller.go:820-984). */
module Sizing {
  import opened Basics
  import opened Tracking
  import opened Provisioning
  import opened Serving
  import opened Convergence
  import opened PoolLaws
  import opened Spread

  // ---------------------------------------------------------------- polled jobs

  /** The polled jobs of two lists of targets add up; a target counts its answer, an error counts nothing. */
  lemma {:induction false} PollTotalAdds(a: seq<Option<nat>>, b: seq<Option<nat>>)
    ensures PollTotal(a + b) == PollTotal(a) + PollTotal(b)
    decreases |b|
  {
    if b == [] {
      assert a + b == a;
    } else {
      var n := |b| - 1;
      PollTotalAdds(a, b[..n]);
      assert (a + b)[..|a + b| - 1] == a + b[..n];
      assert (a + b)[|a + b| - 1] == b[n];
    }
  }

  lemma PollTotalOne(n: nat)
    ensures PollTotal([Some(n)]) == n && PollTotal([None]) == 0 && PollTotal([]) == 0
  {
    var some, none: seq<Option<nat>> := [Some(n)], [None];
    assert some[..0] == [] && none[..0] == [];
  }

  lemma PollTotalPick(a: seq<Option<nat>>, i: nat)
    requires i < |a|
    ensures PollTotal(a) == PollTotal([a[i]]) + PollTotal(a[..i] + a[i + 1..])
  {
    hide PollTotal;
    assert a == a[..i] + [a[i]] + a[i + 1..];
    PollTotalAdds(a[..i] + [a[i]], a[i + 1..]);
    PollTotalAdds(a[..i], [a[i]]);
    PollTotalAdds(a[..i], a[i + 1..]);
  }

  /** The order in which targets are polled does not matter. */
  lemma {:induction false} PollTotalUnordered(a: seq<Option<nat>>, b: seq<Option<nat>>)
    requires multiset(a) == multiset(b)
    ensures PollTotal(a) == PollTotal(b)
    decreases |a|
  {
    if a == [] {
      assert |multiset(b)| == 0;
      assert b == [];
    } else {
      var x := a[0];
      assert x in multiset(b);
      var i :| 0 <= i < |b| && b[i] == x;
      hide PollTotal;
      PollTotalPick(a, 0);
      PollTotalPick(b, i);
      WithoutOne(a, 0);
      WithoutOne(b, i);
      PollTotalUnordered(a[..0] + a[1..], b[..i] + b[i + 1..]);
    }
  }

  lemma WithoutOne(a: seq<Option<nat>>, i: nat)
    requires i < |a|
    ensures multiset(a[..i] + a[i + 1..]) == multiset(a) - multiset{a[i]}
  {
    assert a == a[..i] + [a[i]] + a[i + 1..];
  }

  // ---------------------------------------------------------------- the target

  /** The target: the minimum; for a polled pool with more jobs than idle runners, enough for every job
      beside the busy runners; never above a positive cap. */
  lemma TargetExactly(v: Visit)
    ensures var running, idle, p := |RunningOf(v.rs)|, |IdleOf(v.rs)|, v.p;
            var wanted := if v.demand.Polling? && PollTotal(v.demand.answers) > idle
                          then Max(p.minIdle, running - idle + PollTotal(v.demand.answers)) else p.minIdle;
            Target(v) == if p.maxConcurrency > 0 then Min(wanted, p.maxConcurrency) else wanted
  {
    hide PollTotal, RunningOf, IdleOf;
  }

  // ---------------------------------------------------------------- who is terminated

  /** The idle runners forced out by the cap. */
  ghost function ForcedOut(v: Visit): nat {
    var running, idle, cap := |RunningOf(v.rs)|, |IdleOf(v.rs)|, v.p.maxConcurrency;
    if cap > 0 && running > cap then Min(running - cap, idle) else 0
  }

  /** An idle runner that a scale-to-zero pool lets go: a standby one at once, an on-demand one with a known
      spawn time once the grace period, or the pool's lifetime if that is shorter, is over. */
  ghost predicate LetGo(v: Visit, r: RunnerStatus) {
    || !r.onDemand
    || (&& r.spawnedAt != 0
        && v.now - r.spawnedAt >= if v.p.maxLifetime > 0 then Min(v.p.maxLifetime, v.grace) else v.grace)
  }

  /** Exactly whom one reconcile terminates: the first idle runners, as many as exceed the cap; of the others,
      in a scale-to-zero pool those let go, and otherwise as many as exceed the target, from the front. */
  lemma VictimsExactly(v: Visit, i: nat)
    requires DistinctSlots(v.rs) && i < |IdleOf(v.rs)|
    ensures var idle, k := IdleOf(v.rs), ForcedOut(v);
            idle[i] in Victims(v) <==>
            if i < k then true
            else if v.p.minIdle == 0 then LetGo(v, idle[i])
            else i < |idle| - Target(v)
  {
    hide RunningOf, Target, IdleOf;
    IdleOfMembers(v.rs);
    var idle, k := IdleOf(v.rs), ForcedOut(v);
    var kept := idle[k..];
    assert KeptIdle(v) == kept && OverCap(v.p, |RunningOf(v.rs)|, |idle|) == k;
    assert Victims(v) == idle[..k] + Surplus(v.p, kept, Target(v), v.now, v.grace);
    StaleOfMembers(kept, v.now, GraceFor(v.p, v.grace));
    assert idle[i] in idle[..k] <==> i < k by { NotTwice(idle, i, k); }
    if i >= k {
      assert kept[i - k] == idle[i];
      if v.p.minIdle == 0 {
        assert idle[i] in kept;
      } else {
        var m := |kept| - Target(v);
        if 0 <= m <= |kept| {
          NotTwice(kept, i - k, m) by { KeptDistinct(idle, k); }
        }
      }
    }
  }

  lemma NotTwice(rs: seq<RunnerStatus>, i: nat, k: nat)
    requires DistinctSlots(rs) && i < |rs| && k <= |rs|
    ensures rs[i] in rs[..k] <==> i < k
  {
  }

  lemma KeptDistinct(rs: seq<RunnerStatus>, k: nat)
    requires DistinctSlots(rs) && k <= |rs|
    ensures DistinctSlots(rs[k..])
  {
  }

  // ---------------------------------------------------------------- what is spawned

  lemma {:induction false} LoopEnrols(o: Engine, p: Pool, onDemand: bool, s: Sys, active: nat, n: nat)
    returns (spawns: seq<Effect>)
    requires p.targets != [] && Fresh(o, s)
    ensures var t := SpawnLoop(o, p, onDemand, s, active, n).sys;
            && t.log == s.log + spawns && AllEnrolled(o, t.fleet, spawns, onDemand)
            && (forall i :: 0 <= i < |spawns| ==> spawns[i].slot.pool == p.name)
            && (forall k :: k in s.fleet ==> k in t.fleet && t.fleet[k] == s.fleet[k])
    decreases n
  {
    hide Queued, QuotaFull, SpawnRunner, Fresh, Enrolled;
    spawns := [];
    assert s.log + [] == s.log;
    if n > 0 && !(p.maxConcurrency > 0 && active + Queued(s.queue, p.name) >= p.maxConcurrency) {
      var url := p.targets[active % |p.targets|];
      if QuotaFull(s) {
        EnqueueFresh(o, s, p.name, url);
        spawns := LoopEnrols(o, p, onDemand, Enqueue(s, p.name, url), active, n - 1);
      } else if o.spawn(s.calls).Spawned? {
        SpawnEnrols(o, s, p, onDemand, url);
        SpawnFacts(o, s, p, onDemand, url, p.name);
        var a := SpawnRunner(o, s, p, onDemand, url);
        var rest := LoopEnrols(o, p, onDemand, a.sys, active + 1, n - 1);
        var e := a.sys.log[|s.log|];
        var f := SpawnLoop(o, p, onDemand, s, active, n).sys.fleet;
        EnrolledOn(o, a.sys.fleet, f, e, onDemand);
        EnrolledCons(o, f, e, rest, onDemand);
        spawns := [e] + rest;
        assert s.log + [e] + rest == s.log + spawns;
      } else {
        SpawnFails(o, s, p, onDemand, url);
      }
    }
  }

  lemma EnqueueFresh(o: Engine, s: Sys, pool: string, url: string)
    requires Fresh(o, s)
    ensures Fresh(o, Enqueue(s, pool, url))
  {
  }

  lemma EnrolledOn(o: Engine, f: Fleet, g: Fleet, e: Effect, onDemand: bool)
    requires Enrolled(o, f, e, onDemand) && forall k :: k in f ==> k in g && g[k] == f[k]
    ensures Enrolled(o, g, e, onDemand)
  {
  }

  lemma EnrolledCons(o: Engine, f: Fleet, e: Effect, rest: seq<Effect>, onDemand: bool)
    requires Enrolled(o, f, e, onDemand) && AllEnrolled(o, f, rest, onDemand)
    ensures AllEnrolled(o, f, [e] + rest, onDemand)
  {
    hide Enrolled;
  }

  /** Every runner one reconcile spawns is of its pool, tracked as running and idle with the target it was
      registered with, and on demand exactly if the pool scales to zero or is polled. */
  lemma ReconcileEnrols(o: Engine, s: Sys, v: Visit) returns (spawns: seq<Effect>)
    requires Taken(s, v) && Fresh(o, s) && v.p.targets != []
    ensures var t := Converge(o, s, v).sys;
            && t.log == s.log + Kills(Victims(v)) + spawns
            && AllEnrolled(o, t.fleet, spawns, v.p.minIdle == 0 || v.demand.Polling?)
            && (forall i :: 0 <= i < |spawns| ==> spawns[i].slot.pool == v.p.name)
  {
    hide Target, Victims, Needed, SpawnLoop, Taken, Kills, Enrolled, Fresh;
    VictimsBounded(s, v);
    ScaleDownFacts(o, s, v, v.p.name);
    assert ScaledDown(s, v).log == s.log + Kills(Victims(v));
    hide ScaledDown;
    spawns := [];
    if Needed(s, v) > 0 {
      spawns := LoopEnrols(o, v.p, OnDemand(v), ScaledDown(s, v), |RunningOf(v.rs)| - |Victims(v)|, Needed(s, v));
    } else {
      assert s.log + Kills(Victims(v)) + [] == s.log + Kills(Victims(v));
    }
  }

  // ---------------------------------------------------------------- a concrete reconcile

  /** Two targets with one job each and one that cannot be polled: two runners are spawned, at the first two
      positions. */
  lemma TwoTargetsAndAnError(o: Engine, s: Sys, v: Visit) returns (spawns: seq<Effect>)
    requires s == Sys(map[], [], 10, 0, []) && Fresh(o, s) && o.spawn(0).Spawned? && o.spawn(1).Spawned?
    requires v == Visit(Pool(1, "p", 0, 0, 0, "u", ["a", "b", "c"]), [], Polling([Some(1), None, Some(1)]), 9, 300)
    ensures Taken(s, v) && Converge(o, s, v).ok
    ensures Converge(o, s, v).sys.log == spawns && Converge(o, s, v).sys.queue == []
    ensures |spawns| == 2 && spawns[0].Spawn? && spawns[0].url == "a" && spawns[1].Spawn? && spawns[1].url == "b"
  {
    hide Converge, Room, Fresh, Needed, PollTotal, Taken, Victims;
    ExampleShort(o, s, v);
    spawns := ReconcileSplits(o, s, v);
    assert Kills([]) == [];
    assert [] + [] + spawns == spawns;
    assert [] + Copies(Request("p", v.p.targets[(TallyOf(v) + 2) % 3]), 0) == [];
    assert TargetAt(v.p, (0 + 0) % 3) == "a" && TargetAt(v.p, (0 + 1) % 3) == "b";
  }

  lemma ExampleShort(o: Engine, s: Sys, v: Visit)
    requires s == Sys(map[], [], 10, 0, []) && o.spawn(0).Spawned? && o.spawn(1).Spawned?
    requires v == Visit(Pool(1, "p", 0, 0, 0, "u", ["a", "b", "c"]), [], Polling([Some(1), None, Some(1)]), 9, 300)
    ensures Taken(s, v) && Victims(v) == [] && TallyOf(v) == 0 && Needed(s, v) == 2
    ensures Room(ScaledDown(s, v), 2) == 2 && Converge(o, s, v).ok
  {
    ExampleJobs();
    hide PollTotal;
    assert Victims(v) == [] && RunningOf(v.rs) == [] && Target(v) == 2;
    assert ForPool([], "p") == [];
    UnevenScaledDown(s, v);
    assert RunningSlots(s.fleet) == {};
    LoopSucceeds(o, v.p, OnDemand(v), s, 0, 2);
    hide SpawnLoop;
  }

  lemma ExampleJobs()
    ensures PollTotal([Some(1), None, Some(1)]) == 2
  {
    var a: seq<Option<nat>> := [Some(1)];
    var b: seq<Option<nat>> := [None];
    assert [Some(1), None, Some(1)] == a + b + a;
    PollTotalAdds(a + b, a);
    PollTotalAdds(a, b);
    PollTotalOne(1);
  }
}
