/** How the runners that one reconcile spawns, and the requests it queues, are spread over a pool's
    targets (internal/orchestrator/controller.go:957-981). */
module Spread {
  import opened Basics
  import opened Tracking
  import opened Provisioning
  import opened Convergence

  /** Target positions used by `m` spawns when the tally starts at `active`. */
  ghost function Positions(active: nat, m: nat, n: nat): seq<nat>
    requires n > 0
  {
    seq(m, i requires 0 <= i < m => (active + i) % n)
  }

  /** The target a spawn at tally `active` registers with. */
  ghost function TargetAt(p: Pool, position: nat): string
    requires position < |p.targets|
  {
    if p.targets[position] == "" then p.repositoryUrl else p.targets[position]
  }

  /** The i-th of `spawns` went to position (active + i) mod n. */
  ghost predicate AtPositions(p: Pool, spawns: seq<Effect>, active: nat)
    requires p.targets != []
  {
    forall i :: 0 <= i < |spawns| ==>
                  spawns[i].Spawn? && spawns[i].url == TargetAt(p, (active + i) % |p.targets|)
  }

  lemma AtPositionsCons(p: Pool, e: Effect, rest: seq<Effect>, active: nat)
    requires p.targets != [] && e.Spawn? && e.url == TargetAt(p, active % |p.targets|)
    requires AtPositions(p, rest, active + 1)
    ensures AtPositions(p, [e] + rest, active)
  {
    var all := [e] + rest;
    forall i | 0 <= i < |all|
      ensures all[i].Spawn? && all[i].url == TargetAt(p, (active + i) % |p.targets|)
    {
      if i > 0 {
        assert all[i] == rest[i - 1];
        assert active + i == active + 1 + (i - 1);
      }
    }
  }

  /** The runners spawned by one reconcile take consecutive positions, starting at its tally. */
  lemma {:induction false} SpawnsFollowPositions(o: Engine, p: Pool, onDemand: bool, s: Sys, active: nat, n: nat)
    returns (spawns: seq<Effect>)
    requires p.targets != []
    ensures SpawnLoop(o, p, onDemand, s, active, n).sys.log == s.log + spawns
    ensures AtPositions(p, spawns, active)
    decreases n
  {
    hide QuotaFull, Queued, AtPositions;
    spawns := [];
    assert AtPositions(p, [], active) by { NoPositions(p, active); }
    if n > 0 && !(p.maxConcurrency > 0 && active + Queued(s.queue, p.name) >= p.maxConcurrency) {
      var url := p.targets[active % |p.targets|];
      if QuotaFull(s) {
        spawns := SpawnsFollowPositions(o, p, onDemand, Enqueue(s, p.name, url), active, n - 1);
      } else {
        var a := SpawnRunner(o, s, p, onDemand, url);
        if a.ok {
          var rest := SpawnsFollowPositions(o, p, onDemand, a.sys, active + 1, n - 1);
          var e := a.sys.log[|s.log|];
          AtPositionsCons(p, e, rest, active);
          spawns := [e] + rest;
          assert a.sys.log == s.log + [e];
          assert s.log + [e] + rest == s.log + spawns;
        }
      }
    }
  }

  lemma NoPositions(p: Pool, active: nat)
    requires p.targets != []
    ensures AtPositions(p, [], active)
  {
  }

  /** How often position `j` comes up among 0 .. x-1. */
  ghost function Below(x: nat, n: nat, j: nat): nat
    requires n > 0
  {
    if x == 0 then 0 else Below(x - 1, n, j) + (if (x - 1) % n == j then 1 else 0)
  }

  lemma {:induction false} BelowForm(x: nat, n: nat, j: nat, q: nat, r: nat)
    requires j < n && r < n && x == q * n + r
    ensures Below(x, n, j) == q + (if j < r then 1 else 0)
    decreases x
  {
    if r > 0 {
      DivModUnique(x - 1, n, q, r - 1);
      BelowForm(x - 1, n, j, q, r - 1);
    } else if q > 0 {
      assert x - 1 == (q - 1) * n + (n - 1);
      DivModUnique(x - 1, n, q - 1, n - 1);
      BelowForm(x - 1, n, j, q - 1, n - 1);
    }
  }

  lemma DivModUnique(x: nat, n: nat, q: nat, r: nat)
    requires n > 0 && r < n && x == q * n + r
    ensures x / n == q && x % n == r
  {
    var q', r' := x / n, x % n;
    assert x == q' * n + r';
    if q > q' {
      Gap(q', q, n);
    } else if q < q' {
      Gap(q, q', n);
    }
  }

  lemma Gap(a: nat, b: nat, n: nat)
    requires a < b
    ensures b * n >= a * n + n
  {
    assert b * n == a * n + (b - a) * n;
    assert (b - a) * n == (b - a - 1) * n + n;
  }

  lemma {:induction false} PositionsCount(active: nat, m: nat, n: nat, j: nat)
    requires n > 0
    ensures multiset(Positions(active, m, n))[j] == Below(active + m, n, j) - Below(active, n, j)
  {
    if m > 0 {
      PositionsCount(active, m - 1, n, j);
      var init := Positions(active, m - 1, n);
      assert Positions(active, m, n) == init + [(active + m - 1) % n];
      BagSnoc(init, (active + m - 1) % n);
    }
  }

  /** Whatever the starting tally and however many spawns, any two positions differ by at most one. */
  lemma EvenPositions(active: nat, m: nat, n: nat, i: nat, j: nat)
    requires n > 0 && i < n && j < n
    ensures multiset(Positions(active, m, n))[i] <= multiset(Positions(active, m, n))[j] + 1
  {
    PositionsCount(active, m, n, i);
    PositionsCount(active, m, n, j);
    EvenBelow(active, active + m, n, i, j);
  }

  lemma Euclid(x: nat, n: nat) returns (q: nat, r: nat)
    requires n > 0
    ensures x == q * n + r && r < n
  {
    q, r := x / n, x % n;
  }

  lemma EvenBelow(x: nat, y: nat, n: nat, i: nat, j: nat)
    requires i < n && j < n
    ensures Below(y, n, i) - Below(x, n, i) <= Below(y, n, j) - Below(x, n, j) + 1
  {
    var q, r := Euclid(x, n);
    var q', r' := Euclid(y, n);
    BelowForm(x, n, i, q, r);
    BelowForm(x, n, j, q, r);
    BelowForm(y, n, i, q', r');
    BelowForm(y, n, j, q', r');
  }

  // ---------------------------------------------------------------- how many are spawned, how many queued

  /** How many of `n` the quota leaves room for. */
  ghost function Room(s: Sys, n: nat): (k: nat)
    ensures k <= n
  {
    if s.quota <= 0 then n else Min(n, Max(0, s.quota - Total(s.fleet)))
  }

  ghost function Copies(r: Request, m: nat): seq<Request> {
    seq(m, _ => r)
  }

  lemma CopiesCons(q: seq<Request>, r: Request, m: nat)
    ensures q + [r] + Copies(r, m) == q + Copies(r, m + 1)
    ensures q + Copies(r, 0) == q
  {
  }

  /** With the quota full the whole shortfall is queued, all of it at the tally's position. */
  lemma {:induction false} FullQuotaQueues(o: Engine, p: Pool, onDemand: bool, s: Sys, active: nat, n: nat)
    requires p.targets != [] && QuotaFull(s)
    requires p.maxConcurrency > 0 ==> active + Queued(s.queue, p.name) + n <= p.maxConcurrency
    ensures SpawnLoop(o, p, onDemand, s, active, n) ==
            Attempt(true, s.(queue := s.queue + Copies(Request(p.name, p.targets[active % |p.targets|]), n)))
    decreases n
  {
    hide Queued, Total, Copies;
    var r := Request(p.name, p.targets[active % |p.targets|]);
    CopiesCons(s.queue, r, 0);
    if n > 0 {
      EnqueueFacts(s, p.name, r.targetUrl, p.name);
      FullQuotaQueues(o, p, onDemand, Enqueue(s, p.name, r.targetUrl), active, n - 1);
      CopiesCons(s.queue, r, n - 1);
    }
  }

  /** A loop that succeeds spawns as many as the quota has room for, then queues the rest at the position
      the tally has reached. */
  lemma {:induction false} LoopSplits(o: Engine, p: Pool, onDemand: bool, s: Sys, active: nat, n: nat)
    requires p.targets != [] && Fresh(o, s)
    requires p.maxConcurrency > 0 ==> active + Queued(s.queue, p.name) + n <= p.maxConcurrency
    requires SpawnLoop(o, p, onDemand, s, active, n).ok
    ensures var t, k := SpawnLoop(o, p, onDemand, s, active, n).sys, Room(s, n);
            && |t.log| == |s.log| + k && Count(t.fleet, p.name) == Count(s.fleet, p.name) + k
            && t.queue == s.queue + Copies(Request(p.name, p.targets[(active + k) % |p.targets|]), n - k)
    decreases n
  {
    hide Queued, Total, Count, Copies, Fresh, SpawnRunner;
    var url := p.targets[active % |p.targets|];
    CopiesCons(s.queue, Request(p.name, url), 0);
    if n > 0 {
      if QuotaFull(s) {
        FullQuotaQueues(o, p, onDemand, s, active, n);
      } else {
        var a := SpawnRunner(o, s, p, onDemand, url);
        SpawnFacts(o, s, p, onDemand, url, p.name);
        SpawnKeepsQueue(o, s, p, onDemand, url);
        SpawnLogs(o, s, p, onDemand, url);
        LoopSplits(o, p, onDemand, a.sys, active + 1, n - 1);
        assert active + 1 + Room(a.sys, n - 1) == active + Room(s, n);
      }
    }
  }

  lemma SpawnLogs(o: Engine, s: Sys, p: Pool, onDemand: bool, url: string)
    ensures var a := SpawnRunner(o, s, p, onDemand, url);
            a.ok ==> |a.sys.log| == |s.log| + 1
  {
  }

  lemma {:induction false} LoopSucceeds(o: Engine, p: Pool, onDemand: bool, s: Sys, active: nat, n: nat)
    requires p.targets != [] && forall i: nat :: s.calls <= i < s.calls + n ==> o.spawn(i).Spawned?
    ensures SpawnLoop(o, p, onDemand, s, active, n).ok
    decreases n
  {
    hide Queued, QuotaFull;
    if n > 0 {
      var url := p.targets[active % |p.targets|];
      LoopSucceeds(o, p, onDemand, Enqueue(s, p.name, url), active, n - 1);
      LoopSucceeds(o, p, onDemand, SpawnRunner(o, s, p, onDemand, url).sys, active + 1, n - 1);
    }
  }

  /** Running after scale-down: the tally the spawn loop starts from. */
  ghost function TallyOf(v: Visit): int {
    |RunningOf(v.rs)| - |Victims(v)|
  }

  ghost function Shortfall(s: Sys, v: Visit): nat {
    Max(0, Needed(s, v))
  }

  /** Exactly what a successful reconcile does about its shortfall: it spawns `Room` of it, the i-th at
      position tally + i of the target list, and queues the rest, all at position tally + room. */
  lemma ReconcileSplits(o: Engine, s: Sys, v: Visit) returns (spawns: seq<Effect>)
    requires Taken(s, v) && Fresh(o, s) && v.p.targets != [] && Converge(o, s, v).ok
    ensures TallyOf(v) >= 0
    ensures var t := Converge(o, s, v).sys;
            var k := Room(ScaledDown(s, v), Shortfall(s, v));
            && t.log == s.log + Kills(Victims(v)) + spawns && |spawns| == k && AtPositions(v.p, spawns, TallyOf(v))
            && Count(t.fleet, v.p.name) == TallyOf(v) + k
            && t.queue == s.queue + Copies(Request(v.p.name, v.p.targets[(TallyOf(v) + k) % |v.p.targets|]),
                                           Shortfall(s, v) - k)
  {
    hide Target, Victims, SpawnLoop, Taken, Kills, Copies, Fresh, Total, Count, Queued, AtPositions, RunningOf;
    VictimsBounded(s, v);
    ScaleDownFacts(o, s, v, v.p.name);
    TargetWithinCap(v);
    var t := ScaledDown(s, v);
    assert t.log == s.log + Kills(Victims(v)) && t.queue == s.queue;
    hide ScaledDown;
    spawns := [];
    NoPositions(v.p, TallyOf(v));
    CopiesCons(s.queue, Request(v.p.name, v.p.targets[TallyOf(v) % |v.p.targets|]), 0);
    if Needed(s, v) > 0 {
      LoopSplits(o, v.p, OnDemand(v), t, TallyOf(v), Needed(s, v));
      spawns := SpawnsFollowPositions(o, v.p, OnDemand(v), t, TallyOf(v), Needed(s, v));
    } else {
      assert t.log + [] == t.log;
    }
  }

  /** Round robin: of the runners one reconcile spawns, any two positions of the pool's target list get
      numbers that differ by at most one, whatever was running before, whoever was terminated and whether or
      not it succeeds. */
  lemma SpreadIsEven(o: Engine, s: Sys, v: Visit) returns (spawns: seq<Effect>, positions: seq<nat>)
    requires Taken(s, v) && v.p.targets != []
    ensures Converge(o, s, v).sys.log == s.log + Kills(Victims(v)) + spawns && |positions| == |spawns|
    ensures forall k :: 0 <= k < |spawns| ==>
                          && positions[k] < |v.p.targets|
                          && spawns[k].Spawn? && spawns[k].url == TargetAt(v.p, positions[k])
    ensures forall i, j :: 0 <= i < |v.p.targets| && 0 <= j < |v.p.targets| ==>
                             multiset(positions)[i] <= multiset(positions)[j] + 1
  {
    hide Target, Victims, Needed, SpawnLoop, Taken, Kills;
    VictimsBounded(s, v);
    var active := |RunningOf(v.rs)| - |Victims(v)|;
    assert ScaledDown(s, v).log == s.log + Kills(Victims(v));
    hide ScaledDown;
    spawns := [];
    NoPositions(v.p, active);
    if Needed(s, v) > 0 {
      spawns := SpawnsFollowPositions(o, v.p, OnDemand(v), ScaledDown(s, v), active, Needed(s, v));
    } else {
      assert s.log + Kills(Victims(v)) + [] == s.log + Kills(Victims(v));
    }
    var n := |v.p.targets|;
    positions := Positions(active, |spawns|, n);
    hide Converge;
    forall i, j | 0 <= i < n && 0 <= j < n ensures multiset(positions)[i] <= multiset(positions)[j] + 1 {
      EvenPositions(active, |spawns|, n, i, j);
    }
  }

  // ---------------------------------------------------------------- queued requests are not spread

  /** How many of these requests name `url`. */
  ghost function Naming(q: seq<Request>, url: string): nat {
    if q == [] then 0 else Naming(q[..|q| - 1], url) + (if q[|q| - 1].targetUrl == url then 1 else 0)
  }

  /** Any two of the pool's targets are named by numbers of requests that differ by at most one. */
  ghost predicate Evenly(p: Pool, q: seq<Request>) {
    forall i, j :: 0 <= i < |p.targets| && 0 <= j < |p.targets| ==>
                     Naming(q, p.targets[i]) <= Naming(q, p.targets[j]) + 1
  }

  lemma {:induction false} NamingCopies(r: Request, m: nat, url: string)
    ensures Naming(Copies(r, m), url) == if r.targetUrl == url then m else 0
  {
    if m > 0 {
      NamingCopies(r, m - 1, url);
      assert Copies(r, m)[..m - 1] == Copies(r, m - 1);
    }
  }

  lemma CopiesEvenly(p: Pool, position: nat, m: nat)
    requires position < |p.targets|
    ensures Evenly(p, Copies(Request(p.name, p.targets[position]), m)) <==>
            m <= 1 || forall i :: 0 <= i < |p.targets| ==> p.targets[i] == p.targets[position]
  {
    hide Naming, Copies;
    var q := Copies(Request(p.name, p.targets[position]), m);
    forall url ensures Naming(q, url) == if p.targets[position] == url then m else 0 {
      NamingCopies(Request(p.name, p.targets[position]), m, url);
    }
    if i :| 0 <= i < |p.targets| && p.targets[i] != p.targets[position] {
      assert Naming(q, p.targets[position]) == m && Naming(q, p.targets[i]) == 0;
    }
  }

  /** The requests a successful reconcile queues are spread evenly exactly if there is at most one of them, or
      all targets are the same: the tally does not advance while the quota is full. */
  lemma QueuedEvenlyExactly(o: Engine, s: Sys, v: Visit) returns (queued: seq<Request>)
    requires Taken(s, v) && Fresh(o, s) && v.p.targets != [] && Converge(o, s, v).ok
    ensures Converge(o, s, v).sys.queue == s.queue + queued
    ensures |queued| == Shortfall(s, v) - Room(ScaledDown(s, v), Shortfall(s, v))
    ensures Evenly(v.p, queued) <==>
            |queued| <= 1 || forall i, j :: 0 <= i < j < |v.p.targets| ==> v.p.targets[i] == v.p.targets[j]
  {
    hide Evenly, Converge, Taken, Fresh, ScaledDown, AtPositions, Room, Shortfall;
    var spawns := ReconcileSplits(o, s, v);
    var k := Room(ScaledDown(s, v), Shortfall(s, v));
    var position := (TallyOf(v) + k) % |v.p.targets|;
    queued := Copies(Request(v.p.name, v.p.targets[position]), Shortfall(s, v) - k);
    CopiesEvenly(v.p, position, Shortfall(s, v) - k);
    if forall i :: 0 <= i < |v.p.targets| ==> v.p.targets[i] == v.p.targets[position] {
      assert forall i, j :: 0 <= i < j < |v.p.targets| ==> v.p.targets[i] == v.p.targets[j];
    }
    if forall i, j :: 0 <= i < j < |v.p.targets| ==> v.p.targets[i] == v.p.targets[j] {
      AllSame(v.p.targets, position);
    }
  }

  lemma AllSame(targets: seq<string>, position: nat)
    requires position < |targets| && forall i, j :: 0 <= i < j < |targets| ==> targets[i] == targets[j]
    ensures forall i :: 0 <= i < |targets| ==> targets[i] == targets[position]
  {
    forall i | 0 <= i < |targets| ensures targets[i] == targets[position] {
      if i < position {
        assert targets[i] == targets[position];
      } else if position < i {
        assert targets[position] == targets[i];
      }
    }
  }

  /** It does happen: another pool fills the quota, and a pool with two targets queues two runners, both at
      its first target. */
  lemma QueuedUnevenlyExample(o: Engine, s: Sys, v: Visit, r: RunnerStatus)
    requires r.state.Running? && r.poolName != "p" && s == Sys(map[SlotOf(r) := r], [], 1, 0, [])
    requires v == Visit(Pool(1, "p", 2, 0, 0, "a", ["a", "b"]), [], Webhook, 9, 300)
    ensures Taken(s, v)
    ensures Converge(o, s, v) == Attempt(true, s.(queue := [Request("p", "a"), Request("p", "a")]))
  {
    assert Victims(v) == [] && RunningOf(v.rs) == [] && Target(v) == 2;
    UnevenScaledDown(s, v);
    assert ForPool(s.queue, "p") == [];
    assert RunningSlots(s.fleet) == {SlotOf(r)};
    assert QuotaFull(s);
    FullQuotaQueues(o, v.p, OnDemand(v), s, 0, 2);
    assert [] + Copies(Request("p", "a"), 2) == [Request("p", "a"), Request("p", "a")];
    hide SpawnLoop, Victims, RunningOf, Target;
  }

  lemma UnevenScaledDown(s: Sys, v: Visit)
    requires Victims(v) == []
    ensures ScaledDown(s, v) == s
  {
    assert Kills([]) == [];
    assert SlotsOf([]) == {};
    assert s.fleet - {} == s.fleet;
  }
}
