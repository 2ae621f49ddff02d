/** internal/orchestrator/controller.go: spawning one runner and draining the provisioning queue.

    The container engine and the Git provider are an oracle: the n-th spawn attempt either fails
    or yields a container.  The state records how many attempts were made and, in order, the
    engine and recorder calls with an effect. */
module Provisioning {
  import opened Basics
  import opened Tracking

  /** A runner_pools row as the controller uses it; `targets` is what loadPoolTargets returns. */
  datatype Pool = Pool(
    id: int, name: string, minIdle: int, maxConcurrency: int, maxLifetime: int,
    repositoryUrl: string, targets: seq<string>)

  type Pools = map<string, Pool>

  datatype Request = Request(poolName: string, targetUrl: string)

  datatype SpawnOutcome = SpawnFailed | Spawned(id: string, name: string, at: int)

  /** The outcome of every spawn attempt.  `birth` tells from an id which attempt produced it, and is
      negative for a container this process did not spawn; it only serves to say that ids are
      never handed out twice (see `InjectiveSpawnsHaveBirths`). */
  datatype Engine = Engine(spawn: nat -> SpawnOutcome, birth: string -> int)

  datatype Effect = Spawn(slot: Slot, url: string) | Terminate(slot: Slot) | RecordTimeout(slot: Slot)

  datatype Sys = Sys(fleet: Fleet, queue: seq<Request>, quota: int, calls: nat, log: seq<Effect>)

  ghost predicate WellNamed(pools: Pools) {
    forall n :: n in pools ==> pools[n].name == n
  }

  /** The engine never hands out an id twice, nor one that is already tracked. */
  ghost predicate Fresh(o: Engine, s: Sys) {
    && (forall i: nat :: o.spawn(i).Spawned? ==> o.birth(o.spawn(i).id) == i)
    && (forall k :: k in s.fleet ==> o.birth(k.id) < s.calls)
  }

  /** Any engine whose ids are pairwise distinct has a `birth` function. */
  lemma InjectiveSpawnsHaveBirths(spawn: nat -> SpawnOutcome)
    requires forall i: nat, j: nat :: i < j && spawn(i).Spawned? && spawn(j).Spawned? ==> spawn(i).id != spawn(j).id
    ensures exists birth: string -> int :: TellsBirths(spawn, birth)
  {
    ghost var birth: string -> int := id => BirthOf(spawn, id);
    assert TellsBirths(spawn, birth);
  }

  ghost predicate TellsBirths(spawn: nat -> SpawnOutcome, birth: string -> int) {
    && (forall i: nat :: spawn(i).Spawned? ==> birth(spawn(i).id) == i)
    && (forall id :: (forall i: nat :: spawn(i).Spawned? ==> spawn(i).id != id) ==> birth(id) == -1)
  }

  ghost function BirthOf(spawn: nat -> SpawnOutcome, id: string): int {
    if exists i: nat :: spawn(i).Spawned? && spawn(i).id == id
    then var i: nat :| spawn(i).Spawned? && spawn(i).id == id; i
    else -1
  }

  // ---------------------------------------------------------------- spawnSingleRunner

  datatype Attempt = Attempt(ok: bool, sys: Sys)

  ghost function SpawnRunner(o: Engine, s: Sys, p: Pool, onDemand: bool, url: string): Attempt {
    match o.spawn(s.calls)
    case SpawnFailed => Attempt(false, s.(calls := s.calls + 1))
    case Spawned(id, name, at) =>
      var target := if url == "" then p.repositoryUrl else url;
      var r := RunnerStatus(id, name, p.name, Running, at, false, onDemand, target);
      Attempt(true, s.(fleet := s.fleet[SlotOf(r) := r], calls := s.calls + 1,
                       log := s.log + [Spawn(SlotOf(r), target)]))
  }

  lemma SpawnFacts(o: Engine, s: Sys, p: Pool, onDemand: bool, url: string, pool: string)
    ensures var a := SpawnRunner(o, s, p, onDemand, url);
            && (WellKeyed(s.fleet) ==> WellKeyed(a.sys.fleet))
            && (Fresh(o, s) ==> Fresh(o, a.sys))
            && Total(s.fleet) <= Total(a.sys.fleet) <= Total(s.fleet) + 1
            && Count(s.fleet, pool) <= Count(a.sys.fleet, pool) <= Count(s.fleet, pool) + 1
            && (pool != p.name ==> Count(a.sys.fleet, pool) == Count(s.fleet, pool))
    ensures var a := SpawnRunner(o, s, p, onDemand, url);
            Fresh(o, s) ==>
              && Total(a.sys.fleet) == Total(s.fleet) + (if a.ok then 1 else 0)
              && Count(a.sys.fleet, p.name) == Count(s.fleet, p.name) + (if a.ok then 1 else 0)
  {
    if o.spawn(s.calls).Spawned? {
      var r := RunnerStatus(o.spawn(s.calls).id, o.spawn(s.calls).name, p.name, Running, o.spawn(s.calls).at, false,
                            onDemand,
                            if url == "" then p.repositoryUrl else url);
      TrackCounts(s.fleet, r, pool);
      TrackCounts(s.fleet, r, p.name);
    }
  }

  // ---------------------------------------------------------------- the provisioning queue

  ghost function ForPool(q: seq<Request>, pool: string): seq<Request> {
    if q == [] then []
    else
      ForPool(q[..|q| - 1], pool) + (if q[|q| - 1].poolName == pool then [q[|q| - 1]] else [])
  }

  /** QueueLengthForPool. */
  ghost function Queued(q: seq<Request>, pool: string): nat {
    |ForPool(q, pool)|
  }

  lemma ForPoolSnoc(q: seq<Request>, r: Request, pool: string)
    ensures r.poolName == pool ==> ForPool(q + [r], pool) == ForPool(q, pool) + [r]
    ensures r.poolName != pool ==> ForPool(q + [r], pool) == ForPool(q, pool)
  {
    assert (q + [r])[..|q|] == q;
  }

  lemma ForPoolLast(q: seq<Request>, pool: string)
    requires q != []
    ensures q[|q| - 1].poolName == pool ==> ForPool(q, pool) == ForPool(q[..|q| - 1], pool) + [q[|q| - 1]]
    ensures q[|q| - 1].poolName != pool ==> ForPool(q, pool) == ForPool(q[..|q| - 1], pool)
  {
  }

  ghost predicate QuotaFull(s: Sys) {
    s.quota > 0 && Total(s.fleet) >= s.quota
  }

  ghost predicate CapFull(f: Fleet, p: Pool) {
    p.maxConcurrency > 0 && Count(f, p.name) >= p.maxConcurrency
  }

  datatype Verdict = Served | Discarded | Left

  datatype Handled = Handled(sys: Sys, verdict: Verdict)

  ghost function QueuedTarget(f: Fleet, p: Pool, req: Request): string {
    if req.targetUrl != "" then req.targetUrl
    else if p.targets != [] then p.targets[Count(f, p.name) % |p.targets|]
    else p.repositoryUrl
  }

  /** One iteration of drainQueue's loop. */
  ghost function HandleRequest(o: Engine, pools: Pools, s: Sys, req: Request): Handled {
    if QuotaFull(s) then Handled(s, Left)
    else if req.poolName !in pools then Handled(s, Discarded)
    else
      var p := pools[req.poolName];
      if CapFull(s.fleet, p) then Handled(s, Left)
      else
        var a := SpawnRunner(o, s, p, true, QueuedTarget(s.fleet, p, req));
        Handled(a.sys, if a.ok then Served else Left)
  }

  datatype Drained = Drained(sys: Sys, verdicts: seq<Verdict>)

  ghost function DrainLoop(o: Engine, pools: Pools, s: Sys, q: seq<Request>): (d: Drained)
    ensures |d.verdicts| == |q|
    ensures d.sys.queue == s.queue && d.sys.quota == s.quota && d.sys.calls >= s.calls
  {
    if q == [] then Drained(s, [])
    else
      var d := DrainLoop(o, pools, s, q[..|q| - 1]);
      var h := HandleRequest(o, pools, d.sys, q[|q| - 1]);
      Drained(h.sys, d.verdicts + [h.verdict])
  }

  /** The requests of `q` that got verdict `v`, in queue order. */
  ghost function Select(q: seq<Request>, vs: seq<Verdict>, v: Verdict): seq<Request>
    requires |q| == |vs|
  {
    if q == [] then []
    else
      var n := |q| - 1;
      Select(q[..n], vs[..n], v) + (if vs[n] == v then [q[n]] else [])
  }

  ghost function DrainQueue(o: Engine, pools: Pools, s: Sys): Sys {
    var d := DrainLoop(o, pools, s, s.queue);
    d.sys.(queue := Select(s.queue, d.verdicts, Left))
  }

  // ---------------------------------------------------------------- what draining keeps

  lemma HandleFacts(o: Engine, pools: Pools, s: Sys, req: Request, pool: string)
    requires WellNamed(pools)
    ensures var h := HandleRequest(o, pools, s, req);
            && (WellKeyed(s.fleet) ==> WellKeyed(h.sys.fleet))
            && (Fresh(o, s) ==> Fresh(o, h.sys))
            && Total(s.fleet) <= Total(h.sys.fleet) && Count(s.fleet, pool) <= Count(h.sys.fleet, pool)
    ensures var h := HandleRequest(o, pools, s, req);
            Fresh(o, s) ==>
              && Total(h.sys.fleet) == Total(s.fleet) + (if h.verdict == Served then 1 else 0)
              && Count(h.sys.fleet, pool) == Count(s.fleet, pool) +
                                             (if h.verdict == Served && req.poolName == pool then 1 else 0)
  {
    if req.poolName in pools {
      var p := pools[req.poolName];
      SpawnFacts(o, s, p, true, QueuedTarget(s.fleet, p, req), pool);
    }
  }

  lemma {:induction false} DrainLoopFacts(o: Engine, pools: Pools, s: Sys, q: seq<Request>, pool: string)
    requires WellNamed(pools)
    ensures var d := DrainLoop(o, pools, s, q);
            && (WellKeyed(s.fleet) ==> WellKeyed(d.sys.fleet))
            && (Fresh(o, s) ==> Fresh(o, d.sys))
            && Total(s.fleet) <= Total(d.sys.fleet) && Count(s.fleet, pool) <= Count(d.sys.fleet, pool)
    ensures var d := DrainLoop(o, pools, s, q);
            Fresh(o, s) ==>
              && Total(d.sys.fleet) == Total(s.fleet) + |Select(q, d.verdicts, Served)|
              && Count(d.sys.fleet, pool) == Count(s.fleet, pool) + Queued(Select(q, d.verdicts, Served), pool)
  {
    if q != [] {
      var n := |q| - 1;
      DrainLoopFacts(o, pools, s, q[..n], pool);
      var d := DrainLoop(o, pools, s, q[..n]);
      var h := HandleRequest(o, pools, d.sys, q[n]);
      HandleFacts(o, pools, d.sys, q[n], pool);
      SelectSnoc(q, d.verdicts, h.verdict, Served);
      ForPoolSnoc(Select(q[..n], d.verdicts, Served), q[n], pool);
    }
  }

  lemma SelectSnoc(q: seq<Request>, vs: seq<Verdict>, w: Verdict, v: Verdict)
    requires |q| == |vs| + 1
    ensures w == v ==> Select(q, vs + [w], v) == Select(q[..|vs|], vs, v) + [q[|vs|]]
    ensures w != v ==> Select(q, vs + [w], v) == Select(q[..|vs|], vs, v)
  {
    assert (vs + [w])[..|vs|] == vs;
  }

  /** `a` is `b` with some elements left out. */
  ghost predicate Subsequence(a: seq<Request>, b: seq<Request>) {
    a == [] ||
    (b != [] && (|| Subsequence(a, b[..|b| - 1])
                 || (a[|a| - 1] == b[|b| - 1] && Subsequence(a[..|a| - 1], b[..|b| - 1]))))
  }

  lemma {:induction false} SelectIsSubsequence(q: seq<Request>, vs: seq<Verdict>, v: Verdict)
    requires |q| == |vs|
    ensures Subsequence(Select(q, vs, v), q)
  {
    if q != [] {
      var n := |q| - 1;
      SelectIsSubsequence(q[..n], vs[..n], v);
      assert vs == vs[..n] + [vs[n]];
      SelectSnoc(q, vs[..n], vs[n], v);
      var a := Select(q, vs, v);
      if vs[n] == v {
        assert a[..|a| - 1] == Select(q[..n], vs[..n], v);
      }
    }
  }

  /** The requests with verdict `v`, as a bag. */
  ghost function Bag(q: seq<Request>, vs: seq<Verdict>, v: Verdict): multiset<Request>
    requires |q| == |vs|
  {
    multiset(Select(q, vs, v))
  }

  lemma {:induction false} SelectSplits(q: seq<Request>, vs: seq<Verdict>)
    requires |q| == |vs|
    ensures Bag(q, vs, Served) + Bag(q, vs, Discarded) + Bag(q, vs, Left) == multiset(q)
  {
    if q != [] {
      var n := |q| - 1;
      var init, w := vs[..n], vs[n];
      SelectSplits(q[..n], init);
      assert vs == init + [w];
      SelectBag(q, init, w, Served);
      SelectBag(q, init, w, Discarded);
      SelectBag(q, init, w, Left);
      BagLast(q);
      BagsGrow(Bag(q[..n], init, Served), Bag(q[..n], init, Discarded), Bag(q[..n], init, Left), q[n]);
    }
  }

  lemma SelectBag(q: seq<Request>, vs: seq<Verdict>, w: Verdict, v: Verdict)
    requires |q| == |vs| + 1
    ensures w == v ==> Bag(q, vs + [w], v) == Bag(q[..|vs|], vs, v) + multiset{q[|vs|]}
    ensures w != v ==> Bag(q, vs + [w], v) == Bag(q[..|vs|], vs, v)
  {
    SelectSnoc(q, vs, w, v);
    BagSnoc(Select(q[..|vs|], vs, v), q[|vs|]);
  }

  lemma {:induction false} SelectCounts(q: seq<Request>, vs: seq<Verdict>, pool: string)
    requires |q| == |vs|
    ensures Queued(Select(q, vs, Served), pool) + Queued(Select(q, vs, Discarded), pool)
          + Queued(Select(q, vs, Left), pool) == Queued(q, pool)
  {
    if q != [] {
      var n := |q| - 1;
      SelectCounts(q[..n], vs[..n], pool);
      assert vs == vs[..n] + [vs[n]];
      SelectSnoc(q, vs[..n], vs[n], Served);
      SelectSnoc(q, vs[..n], vs[n], Discarded);
      SelectSnoc(q, vs[..n], vs[n], Left);
      ForPoolSnoc(Select(q[..n], vs[..n], vs[n]), q[n], pool);
    }
  }

  lemma {:induction false} DiscardedPoolsAreGone(o: Engine, pools: Pools, s: Sys, q: seq<Request>)
    ensures forall r :: r in Select(q, DrainLoop(o, pools, s, q).verdicts, Discarded) ==> r.poolName !in pools
  {
    if q != [] {
      var n := |q| - 1;
      DiscardedPoolsAreGone(o, pools, s, q[..n]);
      var d := DrainLoop(o, pools, s, q[..n]);
      SelectSnoc(q, d.verdicts, HandleRequest(o, pools, d.sys, q[n]).verdict, Discarded);
    }
  }

  lemma {:induction false} NoneQueued(q: seq<Request>, pool: string)
    requires forall r :: r in q ==> r.poolName != pool
    ensures ForPool(q, pool) == []
  {
    if q != [] {
      assert q == q[..|q| - 1] + [q[|q| - 1]];
      NoneQueued(q[..|q| - 1], pool);
    }
  }

  /** drainQueue loses and invents nothing: every request is served, discarded or left; what is
      left keeps its order; only requests of pools gone from the database are discarded; the
      running total grows by exactly the number served; and running + queued is the same as before
      for every pool still in the database. */
  lemma DrainConserves(o: Engine, pools: Pools, s: Sys)
    requires WellNamed(pools) && Fresh(o, s)
    ensures var d, t := DrainLoop(o, pools, s, s.queue), DrainQueue(o, pools, s);
            && Bag(s.queue, d.verdicts, Served) + Bag(s.queue, d.verdicts, Discarded) + multiset(t.queue) ==
               multiset(s.queue)
            && Subsequence(t.queue, s.queue)
            && (forall r :: r in Select(s.queue, d.verdicts, Discarded) ==> r.poolName !in pools)
            && Total(t.fleet) == Total(s.fleet) + |Select(s.queue, d.verdicts, Served)|
            && t.quota == s.quota && Fresh(o, t)
    ensures forall n :: n in pools ==>
                          Count(DrainQueue(o, pools, s).fleet, n) + Queued(DrainQueue(o, pools, s).queue, n)
                          == Count(s.fleet, n) + Queued(s.queue, n)
  {
    var d := DrainLoop(o, pools, s, s.queue);
    DrainLoopFacts(o, pools, s, s.queue, "");
    SelectSplits(s.queue, d.verdicts);
    SelectIsSubsequence(s.queue, d.verdicts, Left);
    DiscardedPoolsAreGone(o, pools, s, s.queue);
    forall n | n in pools
      ensures Count(DrainQueue(o, pools, s).fleet, n) + Queued(DrainQueue(o, pools, s).queue, n)
           == Count(s.fleet, n) + Queued(s.queue, n)
    {
      DrainLoopFacts(o, pools, s, s.queue, n);
      SelectCounts(s.queue, d.verdicts, n);
      NoneQueued(Select(s.queue, d.verdicts, Discarded), n);
    }
  }

  // ---------------------------------------------------------------- fairness of draining

  /** The engine serves every spawn attempt from attempt `n` on. */
  ghost predicate NeverFails(o: Engine, n: nat) {
    forall i :: n <= i ==> o.spawn(i).Spawned?
  }

  /** Why a request may have to wait. */
  ghost predicate Blocked(pools: Pools, s: Sys, r: Request) {
    QuotaFull(s) || (r.poolName in pools && CapFull(s.fleet, pools[r.poolName]))
  }

  /** A request waits exactly if the global quota is full or its own pool is at its cap. */
  lemma BlockedMeans(pools: Pools, s: Sys, r: Request)
    ensures Blocked(pools, s, r) <==>
            || (s.quota > 0 && Total(s.fleet) >= s.quota)
            || (r.poolName in pools && pools[r.poolName].maxConcurrency > 0 &&
                Count(s.fleet, pools[r.poolName].name) >= pools[r.poolName].maxConcurrency)
  {
  }

  /** Work conservation: absent spawn errors a request is left only if, when the drain is over, the
      global quota is full or its own pool is at its cap. */
  lemma {:induction false} DrainIsWorkConserving(o: Engine, pools: Pools, s: Sys, q: seq<Request>)
    requires WellNamed(pools) && NeverFails(o, s.calls)
    ensures var d := DrainLoop(o, pools, s, q);
            forall i :: 0 <= i < |q| && d.verdicts[i] == Left ==> Blocked(pools, d.sys, q[i])
  {
    if q != [] {
      var n := |q| - 1;
      DrainIsWorkConserving(o, pools, s, q[..n]);
      var d := DrainLoop(o, pools, s, q[..n]);
      var h := HandleRequest(o, pools, d.sys, q[n]);
      var all := DrainLoop(o, pools, s, q);
      forall i | 0 <= i < |q| && all.verdicts[i] == Left ensures Blocked(pools, all.sys, q[i]) {
        if i < n {
          assert q[..n][i] == q[i] && d.verdicts[i] == Left;
          BlockedStays(o, pools, d.sys, q[n], q[i]);
        }
      }
    }
  }

  lemma BlockedStays(o: Engine, pools: Pools, s: Sys, next: Request, r: Request)
    requires WellNamed(pools) && Blocked(pools, s, r)
    ensures Blocked(pools, HandleRequest(o, pools, s, next).sys, r)
  {
    if next.poolName in pools {
      SpawnFacts(o, s, pools[next.poolName], true, QueuedTarget(s.fleet, pools[next.poolName], next), r.poolName);
    }
  }

  /** FIFO: absent spawn errors, the requests of a pool in the database are served in arrival
      order, as a prefix; the rest of them are what stays queued. */
  lemma {:induction false} DrainServesPrefix(o: Engine, pools: Pools, s: Sys, q: seq<Request>, pool: string)
    requires WellNamed(pools) && NeverFails(o, s.calls) && pool in pools
    ensures var vs := DrainLoop(o, pools, s, q).verdicts;
            ForPool(q, pool) == ForPool(Select(q, vs, Served), pool) + ForPool(Select(q, vs, Left), pool)
  {
    if q != [] {
      var n := |q| - 1;
      DrainServesPrefix(o, pools, s, q[..n], pool);
      var d := DrainLoop(o, pools, s, q[..n]);
      var h := HandleRequest(o, pools, d.sys, q[n]);
      if q[n].poolName == pool && h.verdict == Served {
        // nothing of this pool was left before, or this request would be blocked too
        DrainIsWorkConserving(o, pools, s, q[..n]);
        LeftAreBlocked(pools, d.sys, q[..n], d.verdicts);
        NoneQueued(Select(q[..n], d.verdicts, Left), pool);
      }
      PrefixSnoc(q, d.verdicts, h.verdict, pool);
    }
  }

  lemma PrefixSnoc(q: seq<Request>, vs: seq<Verdict>, w: Verdict, pool: string)
    requires |q| == |vs| + 1
    requires var i := q[..|vs|];
             ForPool(i, pool) == ForPool(Select(i, vs, Served), pool) + ForPool(Select(i, vs, Left), pool)
    requires q[|vs|].poolName == pool ==> w != Discarded
    requires q[|vs|].poolName == pool && w == Served ==> ForPool(Select(q[..|vs|], vs, Left), pool) == []
    ensures ForPool(q, pool) ==
            ForPool(Select(q, vs + [w], Served), pool) + ForPool(Select(q, vs + [w], Left), pool)
  {
    var n := |vs|;
    SelectSnoc(q, vs, w, Served);
    SelectSnoc(q, vs, w, Left);
    ForPoolSnoc(Select(q[..n], vs, Served), q[n], pool);
    ForPoolSnoc(Select(q[..n], vs, Left), q[n], pool);
    ForPoolLast(q, pool);
    AppendLast(ForPool(Select(q[..n], vs, Served), pool), ForPool(Select(q[..n], vs, Left), pool), q[n]);
  }

  lemma AppendLast(a: seq<Request>, b: seq<Request>, r: Request)
    ensures a + b + [r] == a + (b + [r])
    ensures b == [] ==> a + b + [r] == a + [r] + b
  {
  }

  lemma {:induction false} LeftAreBlocked(pools: Pools, s: Sys, q: seq<Request>, vs: seq<Verdict>)
    requires |q| == |vs|
    requires forall i :: 0 <= i < |q| && vs[i] == Left ==> Blocked(pools, s, q[i])
    ensures forall r :: r in Select(q, vs, Left) ==> Blocked(pools, s, r)
  {
    if q != [] {
      LeftAreBlocked(pools, s, q[..|q| - 1], vs[..|q| - 1]);
    }
  }

  // ---------------------------------------------------------------- the unlocked enqueue

  /** drainQueue copies the queue, works on the copy and then overwrites the queue, releasing the
      queue's lock in between.  `late` is what a webhook enqueues meanwhile without holding the
      provisioning lock.  An empty queue, and a failure to load the pools, end the drain before the
      queue is overwritten. */
  ghost function DrainQueueRacing(o: Engine, db: Option<Pools>, s: Sys, late: seq<Request>): Sys {
    if s.queue == [] || db.None? then s.(queue := s.queue + late)
    else
      var copy := s.queue;
      var d := DrainLoop(o, db.value, s.(queue := s.queue + late), copy);
      d.sys.(queue := Select(copy, d.verdicts, Left))
  }

  /** The requests a drain takes out of the queue: served, or discarded because their pool is gone. */
  ghost function TakenOut(o: Engine, db: Option<Pools>, s: Sys): multiset<Request> {
    if db.None? then multiset{}
    else
      var vs := DrainLoop(o, db.value, s, s.queue).verdicts;
      Bag(s.queue, vs, Served) + Bag(s.queue, vs, Discarded)
  }

  /** Across that window conservation holds exactly if nothing was enqueued or the drain ended early;
      otherwise every late request is lost. */
  lemma RacingDrainLosesLate(o: Engine, db: Option<Pools>, s: Sys, late: seq<Request>)
    ensures var t := DrainQueueRacing(o, db, s, late);
            && (TakenOut(o, db, s) + multiset(t.queue) == multiset(s.queue + late) <==>
                  late == [] || s.queue == [] || db.None?)
            && (s.queue != [] && db.Some? ==> t.queue == DrainQueue(o, db.value, s).queue)
  {
    if db.Some? {
      var d := DrainLoop(o, db.value, s, s.queue);
      DrainIgnoresQueue(o, db.value, s, s.queue + late, s.queue);
      SelectSplits(s.queue, d.verdicts);
      hide DrainLoop, Select;
      if s.queue == [] {
        NothingTaken(o, db.value, s);
      } else if late == [] {
        assert s.queue + late == s.queue;
      } else {
        assert |multiset(s.queue + late)| == |s.queue| + |late|;
        assert |multiset(s.queue)| == |s.queue|;
      }
    }
  }

  lemma NothingTaken(o: Engine, pools: Pools, s: Sys)
    requires s.queue == []
    ensures TakenOut(o, Some(pools), s) == multiset{}
  {
  }

  /** It does happen: one request queued, another enqueued while it is being served. */
  lemma RacingDrainExample(o: Engine, s: Sys, pools: Pools)
    requires s == Sys(map[], [Request("p", "u")], 1, 0, []) && pools == map["p" := Pool(1, "p", 0, 0, 0, "u", ["u"])]
    ensures var late := Request("q", "v");
            var t := DrainQueueRacing(o, Some(pools), s, [late]);
            && late !in t.queue && late !in TakenOut(o, Some(pools), s)
            && |TakenOut(o, Some(pools), s) + multiset(t.queue)| == 1
  {
    var late := Request("q", "v");
    RacingDrainLosesLate(o, Some(pools), s, [late]);
    var d := DrainLoop(o, pools, s, s.queue);
    SelectSplits(s.queue, d.verdicts);
    var t := DrainQueueRacing(o, Some(pools), s, [late]);
    hide DrainLoop, Select;
    assert TakenOut(o, Some(pools), s) + multiset(t.queue) == multiset(s.queue);
    assert late !in s.queue;
    assert late !in multiset(s.queue);
    assert late !in TakenOut(o, Some(pools), s) + multiset(t.queue);
  }

  lemma {:induction false} DrainIgnoresQueue(o: Engine, pools: Pools, s: Sys, other: seq<Request>, q: seq<Request>)
    ensures var d, e := DrainLoop(o, pools, s, q), DrainLoop(o, pools, s.(queue := other), q);
            e == Drained(d.sys.(queue := other), d.verdicts)
  {
    if q != [] {
      DrainIgnoresQueue(o, pools, s, other, q[..|q| - 1]);
    }
  }

  // ---------------------------------------------------------------- limits, without freshness

  /** The running total did not go above the larger of its start and the quota. */
  ghost predicate WithinQuota(s: Sys, t: Sys) {
    t.quota == s.quota && Total(t.fleet) <= Max(Total(s.fleet), s.quota)
  }

  /** The pool's running count did not go above the larger of its start and `cap`. */
  ghost predicate WithinCap(s: Sys, t: Sys, pool: string, cap: nat) {
    Count(t.fleet, pool) <= Max(Count(s.fleet, pool), cap)
  }

  /** If the database read had the pool at all, it had it with a cap of at most `cap`. */
  ghost predicate Caps(pools: Pools, pool: string, cap: nat) {
    pool in pools ==> 0 < pools[pool].maxConcurrency <= cap
  }

  lemma HandleWithin(o: Engine, pools: Pools, s: Sys, req: Request, pool: string, cap: nat)
    requires WellNamed(pools) && s.quota > 0
    ensures WithinQuota(s, HandleRequest(o, pools, s, req).sys)
    ensures Caps(pools, pool, cap) ==> WithinCap(s, HandleRequest(o, pools, s, req).sys, pool, cap)
  {
    hide Total, Count, QueuedTarget;
    if req.poolName in pools {
      var p := pools[req.poolName];
      SpawnFacts(o, s, p, true, QueuedTarget(s.fleet, p, req), pool);
    }
  }

  /** Draining the queue respects the quota and the caps, whatever ids the engine returns. */
  lemma {:induction false} DrainWithin(o: Engine, pools: Pools, s: Sys, q: seq<Request>, pool: string, cap: nat)
    requires WellNamed(pools) && s.quota > 0
    ensures WithinQuota(s, DrainLoop(o, pools, s, q).sys)
    ensures Caps(pools, pool, cap) ==> WithinCap(s, DrainLoop(o, pools, s, q).sys, pool, cap)
  {
    hide Total, Count, WellNamed, Caps, HandleRequest;
    if q != [] {
      var n := |q| - 1;
      DrainWithin(o, pools, s, q[..n], pool, cap);
      HandleWithin(o, pools, DrainLoop(o, pools, s, q[..n]).sys, q[n], pool, cap);
    }
  }
}
