# A verified model of the runner supervisor

The supervisor keeps pools of ephemeral CI runners alive in containers. This project models its four hardest
parts in Dafny and proves what they are for, over every input, every run and every interleaving of their steps.

**The pool orchestrator** (`Tracking`, `Auditor`, `Provisioning`, `Serving`, `Convergence`, `PoolLaws`, `Spread`, `Polling`,
`Sizing`, `Hung`, `Shutdown`, `Runs`, `Controller`, `Replacement`). The state is the table of tracked runners, the FIFO provisioning queue, the global quota and
the controller's mode. `Auditor.Reconciler` and `Controller.PoolController` are classes whose methods run the
program's loops over its nested maps; each is proved to take the state exactly where a specification function says.
The specification functions work on a flat view (`Fleet`, one entry per pool and container id) and record engine
calls in a log. The lemmas are about those functions: the quota and the caps hold over every run of every
interleaving of the three spawn paths; draining the queue conserves requests, keeps FIFO order and leaves no work
undone; a reconcile ends exactly at its target; a pool grows only on new demand, so that an exit handled again, by
events or by audits, gives at most one replacement; a pass over hung runners accounts for every kill; every shutdown
ends with nothing running.

**The cron scheduler** (`CronProtocol`, `CronTimes`, `Scheduler`). `CronProtocol` is a step relation over the mutex-protected
state, the ticking loop, the one-slot wakeup channel, the task goroutines and `Stop`. The theorems hold in every
state of every behaviour. `Scheduler` has the scheduler and its entries as objects, because re-registering a pool
replaces the entry object; each critical section is proved to be the corresponding protocol step.

**Seed export and merge import** (`Seed`, `SeedLaws`, `SeedMerge`, `SeedRounds`, `SeedStore`). Export and import are two functions
between a relational database and a name-keyed file. Their composition is proved to be one fixed normalisation,
which is idempotent and keeps ids and ciphertexts; importing any file keeps keys and foreign keys intact and loses
no row, id or secret. `SeedRounds` says which imported files can be exported and imported again. `SeedStore` holds the loops and the transaction.

**The log line collector and the pool matcher** (`LineCollector`, `Matching`). Collecting a stream write by write
equals splitting it as a whole, also when two streams share one list. The matcher returns the first pair of pool and
target with the highest score.

The container engine, the Git providers, the database driver, files, the environment, encryption, JSON, URL parsing
and clocks are parameters with arbitrary answers. A spawn fails or returns a container; where a theorem needs
container ids to be new it says so (`Provisioning.Fresh`); the quota and cap theorems do not need it. Times are
integers and 0 is the zero time. A body that holds the provisioning lock is one step.

Where the code does not do what one would expect, the model follows the code and says exactly when:

- `drainQueue` copies the queue and later overwrites it, while a webhook may append to it without the provisioning
  lock: a request appended in between is lost, exactly if the queue was not empty and the pools could be loaded
  (`RacingDrainLosesLate`, `RacingDrainExample`).
- One reconcile can both terminate and spawn, for a polling pool that scales to zero (`DrainsAndSpawnsExactly`,
  `DrainsAndSpawnsExample`).
- Spawned runners are spread over the targets, queued requests are not: a reconcile queues what the quota has no room
  for, all of it at one target, so they are spread evenly exactly if there is at most one of them or all targets are the
  same (`QueuedEvenlyExactly`, `QueuedUnevenlyExample`).
- Reconciling a polled pool again with the same answers is not always idle: `PollTwice` says exactly when it is and how
  many runners it terminates otherwise; the pool can flap (`PollingFlaps`).
- A graceful shutdown can still spawn, because reaping drains the queue: exactly if a poll reports an exit while some
  request can be tried (`GracefulTries`, `GracefulSpawnsExample`); it never can exactly if the queue is empty or no
  runner is busy (`GracefulNeverSpawnsExactly`).
- Single flight is per entry object, not per pool: registering a pool again while its task runs can start a second task
  (`OverlapHappens`). `CollisionsExactly` names the steps that do so. Single flight per pool holds in every interleaving
  if a pool is registered only while nothing of it runs (`PoolSingleFlight`), or, by what the status calls show, if no
  running job is replaced or dropped (`VisibleSingleFlight`).
- Validation accepts a GitHub app id below zero in a file, and import stores it as null; what is then in the database
  cannot be exported and imported again (`ImportedExportableExactly`, `NegativeAppIdFile`).

## Model

| member | source | states |
|---|---|---|
| `Tracking.TrackCounts` | internal/orchestrator/auditor.go:141-151 | filing a running status adds at most one to the total and to its own pool, exactly one if it was not tracked, and nothing to other pools |
| `Tracking.DropCounts` | internal/orchestrator/auditor.go:154-164 | dropping slots never raises a count; dropping running slots of a pool lowers its count and the total by exactly their number |
| `Tracking.ListingCount` | internal/orchestrator/auditor.go:124-138 | a snapshot in any order has as many running entries as the pool's running count |
| `Auditor.AbsorbAllAt` | internal/orchestrator/auditor.go:67-92 | closed form of an audit at one slot: last report, with busy and on-demand marks accumulated and the last known spawn time kept |
| `Auditor.AuditTracksLive` | internal/orchestrator/auditor.go:51-121 | after an audit the tracked ids are exactly the live ids; surviving entries never lose a busy or on-demand mark or a spawn time |
| `Auditor.AuditBalance` | internal/orchestrator/auditor.go:51-121 | pairs after = pairs before + adopted - disappeared |
| `Auditor.AuditPartition` | internal/orchestrator/auditor.go:94-98 | active and exited together hold every live status exactly once |
| `Auditor.OverlaidAt` | internal/orchestrator/auditor.go:76-98 | each status in the report carries the marks and spawn time accumulated up to it in the list |
| `Auditor.AdoptedExactly` | internal/orchestrator/auditor.go:86-89 | adopted are exactly the reported slots that were not tracked, each once |
| `Auditor.AuditTwice` | internal/orchestrator/auditor.go:51-121 | a repeat audit of the same list, duplicates included, adopts nothing, drops nothing and changes nothing |
| `Auditor.Reconciler.Audit` | internal/orchestrator/auditor.go:51-121 | the loops over the nested map compute exactly that audit and its report, and the total equals the number of tracked pairs |
| `Auditor.Reconciler.TrackRunner` | internal/orchestrator/auditor.go:141-151 | files the status under its pool and id and changes nothing else |
| `Auditor.Reconciler.UntrackRunner` | internal/orchestrator/auditor.go:154-164 | removes exactly that pair, whether or not it was there |
| `Auditor.Reconciler.MarkRunnerBusy` | internal/orchestrator/auditor.go:167-180 | one entry matching by id or name gets the mark and nothing else moves; none is marked only if none matches |
| `Auditor.Reconciler.TrackedPoolRunners` | internal/orchestrator/auditor.go:124-138 | lists each of the pool's statuses exactly once |
| `Provisioning.SpawnFacts` | internal/orchestrator/controller.go:986-1058 | a spawn adds at most one running runner, to its own pool only; exactly one on success if ids are new |
| `Provisioning.InjectiveSpawnsHaveBirths` | internal/orchestrator/controller.go:1037-1050 | every engine that never repeats an id satisfies the freshness assumption's form |
| `Provisioning.DrainConserves` | internal/orchestrator/controller.go:1158-1223 | drainQueue splits the queue into served, discarded (pool gone) and remaining, in order; running grows by the number served; running + queued is unchanged for every pool in the database |
| `Provisioning.DrainIsWorkConserving` | internal/orchestrator/controller.go:1176-1218 | absent spawn errors, a request is left only if in the final state the quota is full or its pool is at its cap |
| `Provisioning.BlockedMeans` | internal/orchestrator/controller.go:1178-1200 | a request waits exactly if a positive quota is reached by all running runners or its pool's positive cap by the pool's own |
| `Provisioning.DrainServesPrefix` | internal/orchestrator/controller.go:1176-1222 | absent spawn errors, each pool's requests are served first come first served, as a prefix, and the rest stay queued |
| `Serving.DrainSpawns` | internal/orchestrator/controller.go:1186-1218 | the spawns of a drain are, in order, one per served request, in its pool, at the target it names, else at the position given by the pool's running count then, else at the repository; each is tracked as an idle on-demand runner with that target |
| `Provisioning.RacingDrainLosesLate` | internal/orchestrator/controller.go:1158-1223 | across the unlocked window conservation holds iff nothing was enqueued meanwhile, the queue was empty or the pools could not be loaded; otherwise every late request is lost |
| `Provisioning.RacingDrainExample` | internal/orchestrator/webhook_scaling.go:280-290 | a state in which a request enqueued meanwhile is neither served, discarded nor queued |
| `Provisioning.DrainWithin` | internal/orchestrator/controller.go:1176-1218 | draining never takes the total above the quota or a pool above its cap, whatever ids the engine returns |
| `Convergence.VictimsAreIdle` | internal/orchestrator/controller.go:875-939 | scale-down picks distinct running runners that are not tracked busy |
| `Convergence.DrainedMeansEnough` | internal/orchestrator/controller.go:875-945 | in webhook mode, or with a positive minimum, a reconcile that drained anyone is not below its target |
| `Convergence.LoopCheckIsDead` | internal/orchestrator/controller.go:957-981 | the spawn loop with and without its concurrency check do the same when the shortfall is within the cap |
| `Convergence.ConvergeReachesTarget` | internal/orchestrator/controller.go:842-984 | a successful reconcile ends with running + queued = max(target, running + queued after scale-down); a failed one at or below that |
| `Sizing.PollTotalAdds` | internal/orchestrator/controller.go:849-858 | polled jobs add up over targets |
| `Sizing.PollTotalUnordered` | internal/orchestrator/controller.go:849-858 | in whatever order the targets are polled |
| `Sizing.TargetExactly` | internal/orchestrator/controller.go:842-873 | the target: the minimum, for a polled backlog above the idle runners enough for all jobs beside the busy ones, never above a positive cap |
| `Sizing.VictimsExactly` | internal/orchestrator/controller.go:875-939 | exactly which idle runners one reconcile terminates: the first above the cap; then those stale by grace or lifetime, or the first above the target |
| `Sizing.ReconcileEnrols` | internal/orchestrator/controller.go:956-981 | every runner a reconcile spawns is tracked, idle, with its target, and on demand exactly if the pool scales to zero or is polled |
| `Sizing.TwoTargetsAndAnError` | internal/orchestrator/controller.go:846-981 | two targets with a job each and one error: two runners, at the first two targets |
| `Convergence.ConvergeNeedsNoLoopCheck` | internal/orchestrator/controller.go:957-963 | inside a reconcile the concurrency check of the loop is unreachable |
| `Convergence.ConvergeIsLocal` | internal/orchestrator/controller.go:820-984 | reconciling one pool leaves other pools' running counts and queued requests alone |
| `Convergence.PollingCoversBacklog` | internal/orchestrator/controller.go:846-894 | in polling mode a backlog above the idle runners is covered up to the cap, even when stale runners are drained in the same call |
| `Convergence.NeverDrainsAndSpawns` | internal/orchestrator/controller.go:871-984 | in webhook mode, or with a positive minimum, one reconcile never both terminates and spawns |
| `PoolLaws.DrainsAndSpawnsExactly` | internal/orchestrator/controller.go:901-981 | exactly when one reconcile does both, and that this takes a polling pool that scales to zero |
| `PoolLaws.DrainsAndSpawnsExample` | internal/orchestrator/controller.go:901-981 | a state and a visit whose reconcile logs a termination and a spawn |
| `PoolLaws.ConvergeTwice` | internal/orchestrator/controller.go:820-984 | in webhook mode a second reconcile at the same instant after a successful one changes nothing |
| `PoolLaws.DrainSupply` | internal/orchestrator/controller.go:1158-1223 | draining never raises running + queued of any pool and keeps it for a pool in the database |
| `PoolLaws.ReapFacts` | internal/orchestrator/controller.go:508-525 | reaping never raises running + queued of any pool, and keeps it if the container was not running there and the pool is in the database |
| `PoolLaws.ExitBounds` | internal/orchestrator/controller.go:451-505 | one handled exit leaves running + queued between the target and the larger of the target and what was there |
| `Spread.SpawnsFollowPositions` | internal/orchestrator/controller.go:957-981 | the i-th runner spawned by a reconcile goes to target position (tally + i) mod n |
| `Spread.SpreadIsEven` | internal/orchestrator/controller.go:957-981 | of the runners one reconcile spawns, any two positions of the target list get numbers that differ by at most one, whatever ran before and whoever was terminated |
| `Spread.ReconcileSplits` | internal/orchestrator/controller.go:941-981 | a successful reconcile spawns as much of its shortfall as the quota has room for and queues the rest, all at position (tally + spawned) mod n |
| `Spread.QueuedEvenlyExactly` | internal/orchestrator/controller.go:964-974 | the queued requests are spread evenly over the targets iff there is at most one of them or all targets are the same |
| `Spread.QueuedUnevenlyExample` | internal/orchestrator/controller.go:964-974 | a pool with two targets that queues two runners, both at the first |
| `Polling.IdleAfter` | internal/orchestrator/controller.go:842-984 | how many idle runners a successful reconcile leaves, and that the busy ones stay |
| `Polling.PollTwice` | internal/orchestrator/controller.go:846-981 | exactly when a second polling reconcile at the same instant with the same answers changes nothing, and how many runners it terminates |
| `Polling.BacklogTwice` | internal/orchestrator/controller.go:851-869 | after a first reconcile that saw a backlog, the same condition in terms of the state before it |
| `Polling.PollingFlaps` | internal/orchestrator/controller.go:928-938 | minimum one, nothing running, two jobs: the first spawns two, the second terminates one, the third is short of one again |
| `Hung.HungPassAccounts` | internal/orchestrator/controller.go:386-447 | each runner the pass removed was terminated once and recorded once; nothing else was removed; no runner spawned by the interleaved drains is among them |
| `Hung.NoHungRunnerLeft` | internal/orchestrator/controller.go:386-447 | after the pass no checked pool with a lifetime tracks a running runner with a known spawn time older than that |
| `Hung.HungPassExactly` | internal/orchestrator/controller.go:394-405 | a tracked runner is gone after the pass iff it was running with a known spawn time older than the positive lifetime of a checked pool of its name |
| `Shutdown.ShutdownLeavesNothingRunning` | internal/orchestrator/controller.go:589-728 | every way out of either shutdown leaves no tracked running runner |
| `Shutdown.GracefulSparesBusy` | internal/orchestrator/controller.go:603-676 | before the deadline each termination is of a runner idle at the start, before any poll, or falls in a poll that itself reported the container as no longer running |
| `Shutdown.GracefulDismissesIdle` | internal/orchestrator/controller.go:603-630 | every runner that is running and not busy is terminated and forgotten before the first poll, and nothing else |
| `Shutdown.DrainTries` | internal/orchestrator/controller.go:1176-1218 | a drain makes no spawn attempt iff every queued request's pool is gone or the request is blocked, and then only forgets requests of pools that are gone |
| `Shutdown.ReapTries` | internal/orchestrator/controller.go:508-525 | reaping a container makes no spawn attempt iff, with it gone, nothing in the queue can be tried, in any mode of the controller |
| `Shutdown.GracefulTries` | internal/orchestrator/controller.go:623-684 | a graceful shutdown makes no spawn attempt iff nothing runs once the idle runners are gone or no poll finds a request that can be tried; no engine in the condition |
| `Shutdown.GracefulNeverSpawnsExactly` | internal/orchestrator/controller.go:589-684 | no graceful shutdown from a state ever attempts a spawn, whatever audits and database answer, iff the queue is empty or no runner is busy |
| `Shutdown.GracefulSpawnsExample` | internal/orchestrator/controller.go:665-673 | a state and a poll with which a graceful shutdown attempts a spawn |
| `Runs.StepWithin` | internal/orchestrator/controller.go:957-981 | no step but an audit or a quota change takes the total above the larger of its start and the quota, or a pool above the larger of its start and its cap |
| `Runs.QuotaHolds` | internal/orchestrator/controller.go:966-973 | over any run, total running never exceeds the larger of its start and the largest quota, plus what audits adopted |
| `Runs.CapHolds` | internal/orchestrator/controller.go:1187-1199 | over any run, a pool never exceeds the larger of its start and the largest cap it was read with, plus what audits adopted into it |
| `Runs.LimitsHold` | internal/orchestrator/webhook_scaling.go:292-329 | from a state within limits, with no adoption, the limits hold in every state across all three spawn paths |
| `Runs.JobAddsOne` | internal/orchestrator/webhook_scaling.go:256-329 | a queued job adds exactly one to running + queued of its pool unless the pool is at its cap or the spawn fails, spawns only below both limits, and touches no other pool |
| `Runs.JobServed` | internal/orchestrator/webhook_scaling.go:256-329 | nothing at the cap; at the quota the request joins the end of the queue with its target; else one attempt and, on success, an on-demand runner at that target |
| `Runs.RemovedPoolIsEmpty` | internal/orchestrator/controller.go:1243-1265 | a drained pool has nothing running and nothing queued; its runners are terminated; every other entry and every other pool's requests stay |
| `Controller.PoolController.constructor` | internal/orchestrator/controller.go:149-200 | starts stopped with an empty queue, a positive quota (20 by default) and a positive scale-to-zero grace (five minutes by default) |
| `Controller.PoolController.TotalActiveRunners` | internal/orchestrator/controller.go:1061-1077 | walking the nested map counts the running pairs |
| `Controller.PoolController.QueueLengthForPool` | internal/orchestrator/controller.go:1133-1144 | counts the pool's queued requests |
| `Controller.PoolController.EnqueueRequest` | internal/orchestrator/controller.go:1146-1155 | appends one request and changes nothing else |
| `Controller.PoolController.SpawnSingleRunner` | internal/orchestrator/controller.go:986-1058 | one spawn attempt: nothing tracked on failure, one new running runner on success |
| `Controller.PoolController.DrainQueue` | internal/orchestrator/controller.go:1158-1223 | the loop over the copied queue is the drain the lemmas are about |
| `Controller.PoolController.ReconcilePool` | internal/orchestrator/controller.go:820-984 | the tallies and loops compute exactly the convergence step, on a snapshot of the current state |
| `Controller.PoolController.EnforceCap` | internal/orchestrator/controller.go:875-894 | drains the first idle runners above the cap, keeps the rest in order |
| `Controller.PoolController.DrainIdle` | internal/orchestrator/controller.go:901-939 | drains exactly the stale or surplus idle runners and lowers the tally by their number |
| `Controller.PoolController.TargetFor` | internal/orchestrator/controller.go:842-873 | the effective target: minimum idle, raised by the polled backlog, capped |
| `Controller.PoolController.ReapContainer` | internal/orchestrator/controller.go:508-525 | terminate, untrack and drain the queue |
| `Controller.PoolController.HandleContainerEvent` | internal/orchestrator/controller.go:451-505 | nothing when paused, stopped or not an exit; a task container only frees capacity; otherwise reap and converge the pool; an error iff pools or provider could not be loaded or the reconcile failed |
| `Controller.PoolController.HandleQueuedJob` | internal/orchestrator/webhook_scaling.go:221-336 | an error when stopped or the pools cannot be loaded, nothing when paused or unmatched; dropped at the cap, queued at the quota, otherwise one spawn |
| `Controller.PoolController.HandleJobProgress` | internal/orchestrator/webhook_scaling.go:338-348 | sets or clears the busy mark of one runner that answers to the name and nothing else; none only if none answers, or paused, stopped or unnamed |
| `Controller.PoolController.CheckHungRunners` | internal/orchestrator/controller.go:386-447 | the nested loops are the pass the lemmas are about, on snapshots taken as they go, over every pool with a lifetime |
| `Controller.PoolController.DrainRemovedPool` | internal/orchestrator/controller.go:1243-1265 | terminates the pool's running runners and drops exactly its requests |
| `Controller.PoolController.Pause` | internal/orchestrator/controller.go:210-217 | only a running controller is paused |
| `Controller.PoolController.Resume` | internal/orchestrator/controller.go:220-227 | only a paused controller is resumed |
| `Controller.PoolController.ImmediateShutdown` | internal/orchestrator/controller.go:692-728 | ends stopped with no tracked running runner; terminates each running runner once |
| `Controller.PoolController.GracefulShutdown` | internal/orchestrator/controller.go:589-684 | ends stopped with no tracked running runner, on every exit path, as the specification says |
| `Controller.PoolController.Reconcile` | internal/orchestrator/controller.go:289-369 | one cycle is a run of audit, reaps, quota refresh, drain, removal of pools that left, hung check and one visit per pool, in that order, each with its own reads, so the run theorems apply |
| `Replacement.NoGrowthWithoutDemand` | internal/orchestrator/controller.go:289-525 | over any run without new demand for a pool, interleaved with anything else, its running + queued never exceeds the larger of its start and its target |
| `Replacement.ExitHandledTwice` | internal/orchestrator/controller.go:451-525 | after one handled exit in webhook mode, no such run raises running + queued, however often the exit is handled again, by events or audits: at most one replacement |
| `Replacement.SecondEventIsCalm` | internal/orchestrator/controller.go:491-502 | a second event for the same exit is such a run |
| `Replacement.CycleAfterExit` | internal/orchestrator/controller.go:302-312 | the event stream, then a whole cycle with its audit and reaps, never raises running + queued of the pool |
| `Replacement.CycleCovers` | internal/orchestrator/controller.go:289-369 | a cycle reaps every container reported as not running, drains the queue, drains every pool that left, checks every pool with a lifetime and visits every resolvable pool |
| `Replacement.KillTries` | internal/orchestrator/controller.go:411-441 | killing a hung runner makes no spawn attempt iff the pools cannot be loaded or nothing queued can be tried with it gone |
| `CronProtocol.StepInv` | internal/cron/scheduler.go:74-480 | every step keeps the invariant on jobs, flags, deadlines, phases and fire times |
| `CronProtocol.ParkedDeadlineIsRight` | internal/cron/scheduler.go:366-412 | in every interleaving a parked loop has a wakeup pending or sleeps to the least next run of the current jobs |
| `CronProtocol.NothingDueWhileAsleep` | internal/cron/scheduler.go:366-412 | no job is due while the loop sleeps with no wakeup pending and its deadline ahead |
| `CronProtocol.SingleFlight` | internal/cron/scheduler.go:414-473 | every entry ever created has at most one task, exactly when its flag is set and it has been launched |
| `CronProtocol.OverlapHappens` | internal/cron/scheduler.go:125-141 | a behaviour in which two tasks of one pool are in flight |
| `CronProtocol.CollisionsExactly` | internal/cron/scheduler.go:125-141 | exactly which steps give a pool a second running entry: registering a busy pool live with a missed fire, or firing a job while an entry it replaced runs |
| `CronProtocol.SingleFlightExactly` | internal/cron/scheduler.go:414-473 | a behaviour has one running entry per pool throughout iff none of its steps is such a step |
| `CronProtocol.SecondTaskAtOnce` | internal/cron/scheduler.go:136-141 | exactly which registrations start a second task of their pool at once |
| `CronProtocol.PoolSingleFlight` | internal/cron/scheduler.go:74-145 | if every registration finds no entry of its pool running, any two tasks in flight are of different pools, in every interleaving |
| `CronProtocol.VisibleSingleFlight` | internal/cron/scheduler.go:183-220 | if nobody replaces or drops a current job that is running, every task belongs to its pool's current job, so any two are of different pools |
| `CronProtocol.SyncInterleaved` | internal/cron/scheduler.go:223-313 | among anything else that happens, the closing purge of a synchronisation leaves only desired pools, and every one registered before and not dropped by others |
| `CronProtocol.NothingRunsAfterStop` | internal/cron/scheduler.go:347-364 | once the Stop that found the scheduler running returns, no task is in flight and none is ever launched again |
| `CronProtocol.RegisteredIsNotOverdue` | internal/cron/scheduler.go:91-144 | a new job is never overdue, and runs at once exactly if the scheduler is live, the policy says so and a fire was missed |
| `CronTimes.NewEntryTimes` | internal/cron/scheduler.go:91-134 | a new job is due at the first point after its last run, or after now if that is past or it never ran |
| `CronTimes.StartDispatches` | internal/cron/scheduler.go:316-344 | the Start that takes effect dispatches every current job with a missed fire pending, once, and touches no other entry |
| `CronTimes.FireReschedules` | internal/cron/scheduler.go:414-433 | in every behaviour a fire moves each current job whose time has come to the first point after the fire, launched or skipped, stamps it if launched, and leaves every other entry alone |
| `CronTimes.FireLaunches` | internal/cron/scheduler.go:414-449 | a fire queues for launch exactly the current jobs whose time has come and that are idle, each once, and leaves no current job due |
| `CronTimes.AsleepUntilTheFirst` | internal/cron/scheduler.go:366-412 | a loop asleep with no wakeup pending has the least non-zero next run of the current jobs as its deadline, none only if there is none |
| `CronTimes.NothingPassedOver` | internal/cron/scheduler.go:91-134 | in every state of every behaviour the next run is the first point after a time not before the last timer dispatch; none only if the schedule has none |
| `CronProtocol.TimerFiresAreSpaced` | internal/cron/scheduler.go:414-433 | consecutive timer dispatches of an entry satisfy t1 < Next(t1) <= t2, skipped fires included |
| `CronProtocol.FireServesDue` | internal/cron/scheduler.go:414-449 | firing leaves nothing due at its time and lists each due idle entry exactly once |
| `Scheduler.Scheduler.RegisterJob` | internal/cron/scheduler.go:74-145 | the error cases change nothing; otherwise a fresh entry object is filed as the protocol's register step says |
| `Scheduler.Scheduler.UnregisterJob` | internal/cron/scheduler.go:148-159 | removes the job and signals, or reports that there was none |
| `Scheduler.Scheduler.PurgeAbsent` | internal/cron/scheduler.go:232-241 | keeps exactly the desired jobs |
| `Scheduler.Scheduler.SyncJobs` | internal/cron/scheduler.go:223-242 | succeeds iff every configuration is acceptable; then exactly the submitted pools have jobs; an error removes nothing |
| `Scheduler.Scheduler.SyncFromDb` | internal/cron/scheduler.go:252-313 | nothing without a reader, an error and no change if reading fails; otherwise exactly the wanted pools that had a job or whose expression parses have one |
| `Scheduler.Scheduler.EarliestNextRun` | internal/cron/scheduler.go:397-412 | the least non-zero next run, none if there is none |
| `Scheduler.Scheduler.Start` | internal/cron/scheduler.go:316-344 | goes live once and dispatches every pending entry |
| `Scheduler.Scheduler.FireDueJobs` | internal/cron/scheduler.go:414-433 | the loop is the protocol's fire step and returns the due idle entries, each once |
| `Scheduler.Scheduler.DispatchJob` | internal/cron/scheduler.go:451-473 | an idle entry is marked running and launched, a running one is left alone |
| `Scheduler.Scheduler.FinishTask` | internal/cron/scheduler.go:438-442 | clears the flag and ends one task |
| `Scheduler.Scheduler.StopSection` | internal/cron/scheduler.go:347-359 | stops once; a call that found nothing running does not wait |
| `SeedLaws.ImportOfExport` | internal/db/seed.go:195-571 | merge-importing an export, environment variables empty, succeeds iff the database is exportable, and yields exactly its normal form |
| `SeedLaws.NormalTwice` | internal/db/seed.go:335-356 | normalising is idempotent |
| `SeedLaws.NormalKeepsSecrets` | internal/db/seed.go:281-305 | ids, names, methods and ciphertexts of every profile survive; app ids become null or positive, limits positive, the repository is among the targets |
| `SeedLaws.NormalHasIntegrity` | internal/db/seed.go:195-464 | the normal form keeps keys and foreign keys |
| `SeedLaws.NormalExportable` | internal/db/seed.go:114-116 | the normal form is exportable iff every GitHub app profile has a positive app id |
| `SeedLaws.ProfileRoundTrip` | internal/db/seed.go:266-305 | importing an exported profile keeps its id and stored ciphertexts |
| `SeedLaws.PoolRoundTrip` | internal/db/seed.go:324-456 | importing an exported pool normalises exactly that pool, its targets and its renovate row |
| `SeedMerge.ImportMerges` | internal/db/seed.go:195-464 | which imports succeed; every profile and pool of the file is written with its defaults, a secret from the file, a key file or the environment in that order, and otherwise kept; every other row stays, targets only grow |
| `SeedMerge.GlobalWritten` | internal/db/seed.go:234-262 | each of the four global settings is written if positive, every other setting stays |
| `SeedMerge.ImportWritesRenovates` | internal/db/seed.go:426-456 | every renovate section of a file is written to its pool's row with its defaults; every other renovate row stays |
| `SeedMerge.ImportKeepsIntegrity` | internal/db/seed.go:195-464 | every successful import keeps keys unique and every pool's profile in the database |
| `SeedMerge.ExportedProfile` | internal/db/seed.go:501-525 | an exported profile: method, app id, a placeholder for a key, the environment name for a token in the field of its method, no secret |
| `SeedMerge.ExportedPool` | internal/db/seed.go:535-566 | an exported pool: its columns, its profile by name, its labels decoded or raw, its renovate row |
| `SeedMerge.ExportedGlobal` | internal/db/seed.go:476-492 | the exported global numbers are what the four settings read as |
| `SeedMerge.ExportHidesSecrets` | internal/db/seed.go:466-571 | no part of an export depends on a ciphertext, only on which ones exist |
| `SeedRounds.ImportKeepsAppIds` | internal/db/seed.go:281-281 | every import keeps stored app ids null or positive |
| `SeedRounds.SecondRoundTrip` | internal/db/seed.go:195-571 | a second export and import is the identity |
| `SeedRounds.ImportedExportableExactly` | internal/db/seed.go:114-116 | what any file leaves behind can be exported and imported again iff its GitHub app ids are positive and the rows it did not mention could be |
| `SeedRounds.NegativeAppIdFile` | internal/db/seed.go:281-281 | a file that imports and leaves behind what is refused when exported and imported again |
| `SeedStore.Validate` | internal/db/seed.go:100-164 | accepts exactly the valid configurations, duplicate pool names included in the check |
| `SeedStore.ValidatePools` | internal/db/seed.go:130-162 | one pass with a set of seen names accepts iff every pool is valid and names are distinct |
| `SeedStore.MergeProfile` | internal/db/seed.go:266-320 | resolve, encrypt, then update the row of that name or insert one |
| `SeedStore.MergePools` | internal/db/seed.go:323-457 | the pool loop, or failure at the first unknown profile |
| `SeedStore.Store.ImportSeedConfig` | internal/db/seed.go:195-464 | an error before the commit leaves the database unchanged; a refusal only for a file that cannot be imported; success is the import, marked |
| `SeedStore.Store.ShouldAutoImportSeed` | internal/db/seed.go:167-183 | a seed is needed iff no import has finished and there is no pool and no profile |
| `SeedStore.Store.ExportSanitizedConfig` | internal/db/seed.go:469-571 | the loops over settings, profiles and pools build exactly the export |
| `LineCollector.SplitInvertsJoin` | internal/orchestrator/logs.go:144-150 | the pieces of a stream are the only newline-free pieces that join to it |
| `LineCollector.JoinInvertsSplit` | internal/orchestrator/logs.go:144-150 | and they do join to it |
| `LineCollector.SplitResumes` | internal/orchestrator/logs.go:141-156 | splitting resumes from the unfinished piece alone |
| `LineCollector.CuttingIsIrrelevant` | internal/orchestrator/logs.go:141-166 | however a stream is cut into writes, a flush gives the entries of the whole stream; the buffer never holds a newline |
| `LineCollector.Collector.Write` | internal/orchestrator/logs.go:141-156 | collects every completed line, up to the clock, and keeps the unfinished one, without a newline |
| `LineCollector.Collector.Flush` | internal/orchestrator/logs.go:158-166 | collects the unfinished line and empties the buffer |
| `LineCollector.Clean` | internal/orchestrator/logs.go:150-150 | the longest prefix not ending in CR or LF, dropping only those |
| `LineCollector.ParseLineMeans` | internal/orchestrator/logs.go:168-192 | a line whose first word is a time in either format keeps what follows the first space and that time; any other keeps its text and the clock |
| `LineCollector.CollectFrames` | internal/orchestrator/logs.go:46-58 | for any interleaving of frames of two streams into one list, each stream's entries are those of that stream as a whole |
| `Matching.LabelsMatch` | internal/orchestrator/webhook_scaling.go:43-64 | true iff the pool offers every label asked for that is not blank |
| `Matching.ParsePoolLabels` | internal/orchestrator/webhook_scaling.go:66-86 | the JSON list, else the comma parts, else the defaults; never empty |
| `Matching.PoolLabelsMeans` | internal/orchestrator/webhook_scaling.go:66-86 | the labels: a JSON list that is not empty, else exactly the parts of a comma list that are not blank, else the defaults |
| `Matching.BuildQuery` | internal/orchestrator/webhook_scaling.go:102-115 | the repository under each URL the event carries, normalised, and for GitHub under the one its full name makes |
| `Matching.RepoMatchMeans` | internal/orchestrator/webhook_scaling.go:146-159 | a repository target is one of those URLs or ends in a slash and the full name |
| `Matching.OrgMatchMeans` | internal/orchestrator/webhook_scaling.go:161-182 | an organisation target is continued after a slash by one of those URLs or ends in a slash and the organisation |
| `Matching.OrgPartMeans` | internal/orchestrator/webhook_scaling.go:171-174 | the organisation is the full name up to its first slash |
| `Matching.ScoreMeans` | internal/orchestrator/webhook_scaling.go:119-198 | each score, exactly: provider and labels fit, and the target matches as its scope asks, a blank scope being a repository's |
| `Matching.ScoreTarget` | internal/orchestrator/webhook_scaling.go:144-198 | the score of one target, by scope |
| `Matching.MatchPool` | internal/orchestrator/webhook_scaling.go:97-213 | the first pair, in pool order then target order, of the highest score; none iff nothing matches |
| `Matching.BestIsUnique` | internal/orchestrator/webhook_scaling.go:200-204 | at most one pair is the best, so the choice depends on the request alone |
| `Matching.MostSpecificWins` | internal/orchestrator/webhook_scaling.go:88-97 | repository beats organisation beats instance in any listing order; the choice has the provider and all labels |

## Left out

- Docker, the Git provider clients, HTTP handlers, SQLite, the web UI, configuration loading: outside calls or plumbing; what they answer is a parameter.
- Overwrite-mode import: it depends on the schema's cascade rules.
- `NormalizeRepositoryURL`, URL parsing, JSON, YAML and cron expressions: library text functions, taken as given; for labels only that decoding undoes encoding, for schedules only that the next time is later and monotone.
- Encryption: ciphertexts are opaque values.
- Check-then-lock races on the controller's mode, `Boot` without the provisioning lock, and the two lock sections in which a graceful shutdown terminates and then forgets idle runners: each is one step, and nothing is claimed across them.
- Container names, environment variables, IP addresses, exit codes, creation times of requests and deregistration at the provider: carried along, never decided upon.
- Manual termination of one runner is a step of `Runs` (`Forget`) and has no method of its own.
- Controller.PoolController.HandleQueuedJob: takes the pool and target as matched; `Matching.MatchPool` is the matching.
- Controller.PoolController.HandleContainerEvent: assumes that pool names are unique in the database, which the schema enforces.
- Scheduler.Scheduler.SyncJobs: runs without interleaving between its registrations; interleavings are in `CronProtocol.SyncInterleaved`.
- Scheduler.Scheduler.SyncFromDb: runs without interleaving, as SyncJobs does.
- CronProtocol.ParkedDeadlineIsRight: when a timer fires relative to its deadline is not modelled, only that firing follows parking.
- LineCollector.CollectFrames: the fallback for streams that are not multiplexed, the stable sort by timestamp and the compressed file are not modelled.
- Log and backup retention, health aggregation and image update notices are not modelled.
