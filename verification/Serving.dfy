/** internal/orchestrator/controller.go: where the runner of a served request goes and how it is tracked. */
module Serving {
  import opened Basics
  import opened Tracking
  import opened Provisioning

  /** The effect is the spawn of a container now tracked: running, idle, with the engine's name and time of
      birth, the mark given and the target it was registered with. */
  ghost predicate Enrolled(o: Engine, f: Fleet, e: Effect, onDemand: bool) {
    && e.Spawn? && e.slot in f
    && o.birth(e.slot.id) >= 0
    && (var born := o.spawn(o.birth(e.slot.id));
        && born.Spawned? && born.id == e.slot.id
        && f[e.slot] == RunnerStatus(born.id, born.name, e.slot.pool, Running, born.at, false, onDemand, e.url))
  }

  lemma SpawnEnrols(o: Engine, s: Sys, p: Pool, onDemand: bool, url: string)
    requires Fresh(o, s) && o.spawn(s.calls).Spawned?
    ensures var a := SpawnRunner(o, s, p, onDemand, url);
            var k := Slot(p.name, o.spawn(s.calls).id);
            var e := Spawn(k, if url == "" then p.repositoryUrl else url);
            && a.ok && a.sys.log == s.log + [e] && Enrolled(o, a.sys.fleet, e, onDemand)
            && k !in s.fleet && a.sys.fleet == s.fleet[k := a.sys.fleet[k]]
  {
  }

  /** Where the runner of a served request is registered: at the target it names, else at the position of
      the pool's targets given by the pool's running count then, else at the repository. */
  ghost function PlaceFor(p: Pool, req: Request, running: nat): string {
    if req.targetUrl != "" then req.targetUrl
    else if p.targets != [] && p.targets[running % |p.targets|] != "" then p.targets[running % |p.targets|]
    else p.repositoryUrl
  }

  /** `spawns` serves `served` one by one, starting from the running counts of `f`. */
  ghost predicate Serves(pools: Pools, f: Fleet, served: seq<Request>, spawns: seq<Effect>) {
    && |spawns| == |served|
    && (served == [] ||
        (var n := |served| - 1;
         var r, e := served[n], spawns[n];
         && e.Spawn? && e.slot.pool == r.poolName && r.poolName in pools
         && e.url == PlaceFor(pools[r.poolName], r, Count(f, r.poolName) + Queued(served[..n], r.poolName))
         && Serves(pools, f, served[..n], spawns[..n])))
  }

  /** The i-th of them. */
  lemma {:induction false} ServesAt(pools: Pools, f: Fleet, served: seq<Request>, spawns: seq<Effect>, i: nat)
    requires Serves(pools, f, served, spawns) && i < |served|
    ensures spawns[i].Spawn? && spawns[i].slot.pool == served[i].poolName && served[i].poolName in pools
    ensures spawns[i].url == PlaceFor(pools[served[i].poolName], served[i],
                                      Count(f, served[i].poolName) + Queued(served[..i], served[i].poolName))
  {
    hide Count, Queued, PlaceFor;
    var n := |served| - 1;
    if i < n {
      ServesAt(pools, f, served[..n], spawns[..n], i);
      assert served[..n][..i] == served[..i];
    }
  }

  ghost predicate AllEnrolled(o: Engine, f: Fleet, spawns: seq<Effect>, onDemand: bool) {
    forall i :: 0 <= i < |spawns| ==> Enrolled(o, f, spawns[i], onDemand)
  }

  lemma ServesSnoc(pools: Pools, f: Fleet, served: seq<Request>, spawns: seq<Effect>, r: Request, e: Effect)
    requires Serves(pools, f, served, spawns)
    requires e.Spawn? && e.slot.pool == r.poolName && r.poolName in pools
    requires e.url == PlaceFor(pools[r.poolName], r, Count(f, r.poolName) + Queued(served, r.poolName))
    ensures Serves(pools, f, served + [r], spawns + [e])
  {
    hide Count, Queued, PlaceFor;
    assert (served + [r])[..|served|] == served;
    assert (spawns + [e])[..|spawns|] == spawns;
  }

  /** From `s` to `t` one effect was added: the spawn that serves `req`. */
  ghost predicate ServedBy(o: Engine, p: Pool, s: Sys, t: Sys, req: Request, e: Effect) {
    && e.Spawn? && e.slot.pool == req.poolName
    && t.log == s.log + [e] && Enrolled(o, t.fleet, e, true)
    && e.slot !in s.fleet && e.slot in t.fleet && t.fleet == s.fleet[e.slot := t.fleet[e.slot]]
    && e.url == PlaceFor(p, req, Count(s.fleet, req.poolName))
  }

  lemma HandleServes(o: Engine, pools: Pools, s: Sys, req: Request)
    requires WellNamed(pools) && Fresh(o, s)
    ensures var h := HandleRequest(o, pools, s, req);
            && (h.verdict != Served ==> h.sys.fleet == s.fleet && h.sys.log == s.log)
            && (h.verdict == Served ==>
                  && req.poolName in pools && |h.sys.log| == |s.log| + 1
                  && ServedBy(o, pools[req.poolName], s, h.sys, req, h.sys.log[|s.log|]))
  {
    hide Total, Count, Fresh, SpawnRunner;
    if !QuotaFull(s) && req.poolName in pools && !CapFull(s.fleet, pools[req.poolName]) {
      var p := pools[req.poolName];
      var url := QueuedTarget(s.fleet, p, req);
      if o.spawn(s.calls).Spawned? {
        SpawnEnrols(o, s, p, true, url);
      } else {
        SpawnFails(o, s, p, true, url);
      }
    }
  }

  lemma SpawnFails(o: Engine, s: Sys, p: Pool, onDemand: bool, url: string)
    requires o.spawn(s.calls).SpawnFailed?
    ensures SpawnRunner(o, s, p, onDemand, url) == Attempt(false, s.(calls := s.calls + 1))
  {
  }

  lemma EnrolledStays(o: Engine, f: Fleet, g: Fleet, k: Slot, spawns: seq<Effect>, onDemand: bool)
    requires AllEnrolled(o, f, spawns, onDemand) && k !in f && k in g && g == f[k := g[k]]
    ensures AllEnrolled(o, g, spawns, onDemand)
  {
  }

  /** The spawns of a drain are, in order, one per served request, each in that request's pool, at the target
      the request names, or else at the position given by the pool's running count at that moment, or else at
      the repository; and each is tracked as an idle on-demand runner with that target. */
  lemma {:induction false} DrainSpawns(o: Engine, pools: Pools, s: Sys, q: seq<Request>) returns (spawns: seq<Effect>)
    requires WellNamed(pools) && Fresh(o, s)
    ensures var d := DrainLoop(o, pools, s, q);
            && d.sys.log == s.log + spawns
            && Serves(pools, s.fleet, Select(q, d.verdicts, Served), spawns)
            && AllEnrolled(o, d.sys.fleet, spawns, true)
  {
    hide HandleRequest, Count, Queued, Fresh, PlaceFor, Enrolled, Serves, AllEnrolled, WellNamed;
    spawns := [];
    if q == [] {
      NothingServed(o, pools, s.fleet);
    } else {
      var n := |q| - 1;
      var d := DrainLoop(o, pools, s, q[..n]);
      spawns := DrainSpawns(o, pools, s, q[..n]);
      DrainLoopFacts(o, pools, s, q[..n], q[n].poolName);
      var h := HandleRequest(o, pools, d.sys, q[n]);
      HandleServes(o, pools, d.sys, q[n]);
      SelectSnoc(q, d.verdicts, h.verdict, Served);
      if h.verdict == Served {
        var e := h.sys.log[|d.sys.log|];
        hide Select, DrainLoop;
        ServesSnoc(pools, s.fleet, Select(q[..n], d.verdicts, Served), spawns, q[n], e);
        EnrolledStays(o, d.sys.fleet, h.sys.fleet, e.slot, spawns, true);
        EnrolledSnoc(o, h.sys.fleet, spawns, e, true);
        assert s.log + spawns + [e] == s.log + (spawns + [e]);
        spawns := spawns + [e];
      }
    }
  }

  lemma NothingServed(o: Engine, pools: Pools, f: Fleet)
    ensures Serves(pools, f, [], []) && AllEnrolled(o, f, [], true)
  {
  }

  lemma EnrolledSnoc(o: Engine, f: Fleet, spawns: seq<Effect>, e: Effect, onDemand: bool)
    requires AllEnrolled(o, f, spawns, onDemand) && Enrolled(o, f, e, onDemand)
    ensures AllEnrolled(o, f, spawns + [e], onDemand)
  {
    hide Enrolled;
  }
}
