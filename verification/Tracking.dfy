/** The runners the supervisor tracks, and how they are counted.

    The program keeps `tracked: pool -> (container id -> status)`.  Specifications use the flat
    view, one entry per (pool, id) pair; class `Auditor.Reconciler` relates the two. */
module Tracking {

  datatype RunnerState = Running | NotRunning(status: string)

  /** `spawnedAt == 0` is the zero time: unknown. */
  datatype RunnerStatus = RunnerStatus(
    id: string, name: string, poolName: string, state: RunnerState,
    spawnedAt: int, isBusy: bool, onDemand: bool, targetUrl: string)

  datatype Slot = Slot(pool: string, id: string)

  type Fleet = map<Slot, RunnerStatus>

  function SlotOf(r: RunnerStatus): Slot {
    Slot(r.poolName, r.id)
  }

  /** Every status is filed under its own pool and id. */
  ghost predicate WellKeyed(f: Fleet) {
    forall k :: k in f ==> SlotOf(f[k]) == k
  }

  ghost function RunningSlots(f: Fleet): set<Slot> {
    set k | k in f && f[k].state.Running?
  }

  ghost function RunningIn(f: Fleet, pool: string): set<Slot> {
    set k | k in f && k.pool == pool && f[k].state.Running?
  }

  /** TotalActiveRunners, and the per-pool running count. */
  ghost function Total(f: Fleet): nat {
    |RunningSlots(f)|
  }

  ghost function Count(f: Fleet, pool: string): nat {
    |RunningIn(f, pool)|
  }

  lemma SubsetSize<T>(a: set<T>, b: set<T>)
    requires a <= b
    ensures |a| <= |b|
    ensures |a| == |b| ==> a == b
  {
    var rest := b - a;
    assert b == a + rest;
  }

  lemma InsertSize<T>(a: set<T>, x: T)
    ensures |a| <= |a + {x}| <= |a| + 1
    ensures x !in a ==> |a + {x}| == |a| + 1
  {
    if x in a {
      assert a + {x} == a;
    }
  }

  /** Filing a running status adds at most one to the total and to its own pool's count, and
      exactly one when the slot was not tracked; other pools' counts stay. */
  lemma TrackCounts(f: Fleet, r: RunnerStatus, pool: string)
    requires r.state.Running?
    ensures Total(f) <= Total(f[SlotOf(r) := r]) <= Total(f) + 1
    ensures SlotOf(r) !in f ==> Total(f[SlotOf(r) := r]) == Total(f) + 1
    ensures r.poolName != pool ==> Count(f[SlotOf(r) := r], pool) == Count(f, pool)
    ensures r.poolName == pool ==>
              Count(f, pool) <= Count(f[SlotOf(r) := r], pool) <= Count(f, pool) + 1
    ensures r.poolName == pool && SlotOf(r) !in f ==>
              Count(f[SlotOf(r) := r], pool) == Count(f, pool) + 1
  {
    TrackSlots(f, r, pool);
    hide RunningSlots, RunningIn, SlotOf;
    InsertSize(RunningSlots(f), SlotOf(r));
    InsertSize(RunningIn(f, pool), SlotOf(r));
  }

  lemma TrackSlots(f: Fleet, r: RunnerStatus, pool: string)
    requires r.state.Running?
    ensures var k := SlotOf(r); var g := f[k := r];
            && RunningSlots(g) == RunningSlots(f) + {k}
            && RunningIn(g, pool) == (if r.poolName == pool then RunningIn(f, pool) + {k} else RunningIn(f, pool))
            && (k !in f ==> k !in RunningSlots(f) && k !in RunningIn(f, pool))
  {
  }

  /** Dropping slots never raises a count; dropping running slots of one pool lowers that pool's
      count, and the total, by exactly their number. */
  lemma DropCounts(f: Fleet, gone: set<Slot>, pool: string)
    ensures Total(f - gone) <= Total(f) && Count(f - gone, pool) <= Count(f, pool)
    ensures (forall k :: k in gone ==> k.pool != pool) ==> Count(f - gone, pool) == Count(f, pool)
    ensures gone <= RunningSlots(f) ==> Total(f - gone) == Total(f) - |gone|
    ensures gone <= RunningIn(f, pool) ==> Count(f - gone, pool) == Count(f, pool) - |gone|
  {
    var g := f - gone;
    assert RunningSlots(g) == RunningSlots(f) - gone;
    assert RunningIn(g, pool) == RunningIn(f, pool) - gone;
    SubsetSize(RunningSlots(g), RunningSlots(f));
    SubsetSize(RunningIn(g, pool), RunningIn(f, pool));
    if forall k :: k in gone ==> k.pool != pool {
      assert RunningIn(g, pool) == RunningIn(f, pool);
    }
  }

  // ---- Snapshots: TrackedPoolRunners returns a pool's statuses in map-iteration order ----

  ghost function SlotsOf(rs: seq<RunnerStatus>): set<Slot> {
    set r | r in rs :: SlotOf(r)
  }

  ghost predicate DistinctSlots(rs: seq<RunnerStatus>) {
    forall i, j :: 0 <= i < j < |rs| ==> SlotOf(rs[i]) != SlotOf(rs[j])
  }

  /** `rs` lists exactly the entries of `pool`, each once, in some order. */
  ghost predicate Listing(f: Fleet, pool: string, rs: seq<RunnerStatus>) {
    && DistinctSlots(rs)
    && (forall r :: r in rs ==> r.poolName == pool && SlotOf(r) in f && f[SlotOf(r)] == r)
    && (forall k :: k in f && k.pool == pool ==> f[k] in rs)
  }

  lemma {:induction false} SlotsOfSize(rs: seq<RunnerStatus>)
    requires DistinctSlots(rs)
    ensures |SlotsOf(rs)| == |rs|
  {
    if rs == [] {
      assert SlotsOf(rs) == {};
    } else {
      var n := |rs| - 1;
      SlotsOfSize(rs[..n]);
      assert rs == rs[..n] + [rs[n]];
      assert SlotsOf(rs) == SlotsOf(rs[..n]) + {SlotOf(rs[n])};
      assert SlotOf(rs[n]) !in SlotsOf(rs[..n]);
    }
  }

  /** The running runners of a snapshot, and the idle ones among them, in snapshot order. */
  function RunningOf(rs: seq<RunnerStatus>): seq<RunnerStatus> {
    if rs == [] then []
    else
      var n := |rs| - 1;
      RunningOf(rs[..n]) + (if rs[n].state.Running? then [rs[n]] else [])
  }

  function IdleOf(rs: seq<RunnerStatus>): seq<RunnerStatus> {
    if rs == [] then []
    else
      var n := |rs| - 1;
      IdleOf(rs[..n]) + (if rs[n].state.Running? && !rs[n].isBusy then [rs[n]] else [])
  }

  lemma {:induction false} RunningOfMembers(rs: seq<RunnerStatus>)
    ensures forall r :: r in RunningOf(rs) <==> r in rs && r.state.Running?
    ensures DistinctSlots(rs) ==> DistinctSlots(RunningOf(rs))
  {
    if rs != [] {
      var n := |rs| - 1;
      RunningOfMembers(rs[..n]);
      DistinctSnoc(rs, RunningOf(rs[..n]));
    }
  }

  lemma {:induction false} IdleOfMembers(rs: seq<RunnerStatus>)
    ensures forall r :: r in IdleOf(rs) <==> r in rs && r.state.Running? && !r.isBusy
    ensures DistinctSlots(rs) ==> DistinctSlots(IdleOf(rs))
    ensures |IdleOf(rs)| <= |RunningOf(rs)|
  {
    if rs != [] {
      var n := |rs| - 1;
      IdleOfMembers(rs[..n]);
      DistinctSnoc(rs, IdleOf(rs[..n]));
    }
  }

  /** Keeping or dropping the last element of a list keeps a selection of it duplicate-free. */
  lemma DistinctSnoc(rs: seq<RunnerStatus>, kept: seq<RunnerStatus>)
    requires rs != []
    requires forall r :: r in kept ==> r in rs[..|rs| - 1]
    requires DistinctSlots(rs[..|rs| - 1]) ==> DistinctSlots(kept)
    ensures DistinctSlots(rs) ==> DistinctSlots(kept) && DistinctSlots(kept + [rs[|rs| - 1]])
    ensures forall r :: r in rs <==> r in rs[..|rs| - 1] || r == rs[|rs| - 1]
  {
    var n := |rs| - 1;
    assert rs == rs[..n] + [rs[n]];
    if DistinctSlots(rs) {
      forall i | 0 <= i < |kept| ensures SlotOf(kept[i]) != SlotOf(rs[n]) {
        var r := kept[i];
        assert r in kept;
        assert r in rs[..n];
      }
    }
  }

  /** The local `activeCount` a caller computes from a snapshot is the pool's running count. */
  lemma ListingCount(f: Fleet, pool: string, rs: seq<RunnerStatus>)
    requires WellKeyed(f) && Listing(f, pool, rs)
    ensures |RunningOf(rs)| == Count(f, pool)
  {
    RunningOfMembers(rs);
    SlotsOfSize(RunningOf(rs));
    assert SlotsOf(RunningOf(rs)) == RunningIn(f, pool) by {
      forall k | k in RunningIn(f, pool) ensures k in SlotsOf(RunningOf(rs)) {
        assert f[k] in RunningOf(rs) && SlotOf(f[k]) == k;
      }
    }
  }
}
