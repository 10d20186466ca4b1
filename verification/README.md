# Verification model of the control plane

Machine-checked Dafny models of the parts of the management backend whose correctness spans several
functions, processes or runs: the leased task queue and the records it drives, leader election, the
account snapshot store and its schedulers, supplier policies, login access policies, the in-memory rate
limiter, export schedules with their deliveries, and the two-factor failure counter. `dafny verify dfyconfig.toml` checks
everything.

## How it is modelled

**Tables and statements.** Database tables are maps. Every SQL statement or transaction of the queue is a
function from tables to tables (`TaskTables`), a statement whose WHERE clause matches nothing changes
nothing, and unique indexes reject. `TaskStatements` collects the statements; a run is any interleaving of
them, so every worker may be slow, stale, duplicated or dead. Where the source updates rows step by step
there is a class (`TaskStore`, `LeaseStore`, `Leader`, `SnapshotStore`, `SupplierMigration.Store`,
`ExportScheduleStore`, `InMemoryRateLimiter`, `TwoFactorStore`) whose methods follow the code and are
proved to have exactly the effect of those functions; the theorems are then about runs. What the functions
themselves compute is stated apart from them, in columns and literal values: `TaskEffects` for the queue,
`ScheduleEffects` for export schedules, `AccessMeaning` for access policies, and beside the functions elsewhere.

**Hypotheses, all explicit in the contracts.**

- Random ids are fresh: `issued` remembers every task id, and creation refuses a known one.
- `TaskStatements.Legal` says what callers keep to, for instance that a claim records a task under a lock
  key made of that task's own type and scope, as the dispatcher in `service/system_task.go` does (it
  chooses the claim function by whether the scope is empty, lines 279-291).
- No-orphan theorems use `ClaimMachine`, where a claim is six separate statements. They need
  `TimelyRun`: a claim writes its lock and starts its task no later than its own `lockUntil` (60 seconds),
  renewals never shorten a lease, the clock does not go back, and a runner has one claim in flight. Without
  the first of these the property is false: `TaskOrphanWitness.LateStartHappens` reaches an orphan from the
  empty tables, for two queued tasks of any type, by a run whose last step alone is late, and
  `TaskOrphans.StartIsSafeIffStillNamed` gives the exact condition.
- That no claimer dies, and no database error falls, between stealing a lock and expiring the old task is
  `TaskOrphans.NonePending`: with it every running task is named by its own row
  (`TaskOrphans.EveryRunningTaskIsNamed`). Without it the theorems keep the case of a task about to be
  expired, and a claimer that dies there leaves an orphan no scan finds (`TaskOrphanWitness.CrashHappens`);
  `TaskOrphanWitness.CrashOrphansIff` says of every crash whether it leaves one.
- Leader election assumes one clock for all nodes; statements may be delayed without limit, and
  acknowledgements may be lost.
- Rate limiter, two-factor counter and export schedules take the clock readings as parameters.
  In export schedules a claim or edit that takes effect reads its clock no earlier than the ones that took
  effect before it, which the version check enforces for steps that read the plan first. Nothing is asked of
  claims that are refused.

**Points where code, comments or expectations part.**

- Acquiring a control-plane lease trims name and holder, renewing and releasing do not
  (`model/control_plane_lease.go` 17-63). A holder acquires and then renews if and only if both texts are
  already trimmed: `ControlPlaneLease.AcquireThenRenew`, `ControlPlaneLeader.BlankHolderIsLost`.
- A normalised scope key that was cut at 128 characters may end in a blank, and is then not stable under
  normalising again: `TaskKeys.NormalizedScopeIsStable` gives the condition, `TaskKeys.UnstableScope` a scope.
- A lease that lapsed can come back without a new claim, but only through a renewal that read its clock
  before the lapse: `TaskFence.LateRenewal`, and `TaskFence.LateRenewalRevives` is such a run.
- Lease expiry acts by task id alone. A scan takes away a live lease exactly when the row it read as lapsed
  has since been taken again, or renewed late, for the same task (`TaskOrphans.ScanHitsLiveLeaseIff`);
  `TaskOrphanWitness.LiveLeaseIsHit` reaches that from the empty tables by timely steps, with a minute left on
  the lease, after a first claimer died between taking the lock and starting.
- For a Claude gateway whose inventory predates the current schema the scheduler looks at the inventory
  alone. It misses due outputs while a failed inventory cools down, and runs although nothing is due while an
  inventory that did not fail is fresh: `SyncSchedule.GatewayLooksAtInventoryOnly` states both exactly,
  `SyncSchedule.GatewayMissesOutputs` and `SyncSchedule.GatewayRunsForNothing` give histories that get there.
- The rate limiter is exact if and only if the window is at most one second longer than the idle time after
  which queues are dropped: `RateLimiter.AnswersAreExact`, `RateLimiter.WindowsHoldAtMostMax`,
  `RateLimiter.LongWindowsAreForgotten`.
- `compareAny` is not an order on all values, because it compares numbers as numbers and anything else as
  text. It is transitive on three values if and only if they fit: of three numbers none is not-a-number or all
  compare equal, and a text does not lie, in the order of texts, between two numbers whose prints are out of
  numeric order (`AccessComparison.TransitiveIffFit`). On proper numbers, and on values of which at most one
  reads as a number, it is transitive (`AccessComparison.OrderOnNumbersAndOnTexts`).
  `AccessComparison.CompareCycles` and `AccessComparison.NotANumberEqualsAll` are witnesses.
- The migration changes what decides a runtime key that some layer mentions in exactly three cases, given by
  `SupplierMigration.DecisionChangesIff`: the binding does not mention the key and sets its parent; the supplier
  does so and the binding does not answer the key; or the global layer does so with true and neither answers
  it. `SupplierMigration.MentionedKeyChanges` is an input on which a mentioned key changes.

## Model

| member | source | states |
|---|---|---|
| TaskStatements.RowsFitRun | model/system_task.go:404-550 | in every interleaving each lock row names a created task of the row's own type and scope, and every export belongs to an unscoped export task |
| TaskStatements.DeadIsFinal | model/system_task.go:649-818 | a finished, failed, cancelled, retired or deleted task never becomes active again, whatever statements follow |
| TaskEffects.CreatesPending | model/system_task.go:165-194 | a creation leaves a pending, unlocked task under its family's key, unless the id is known or the key is held |
| TaskEffects.LocksFreeOrLapsed | model/system_task.go:483-550 | a lock row is written where none stands, or over one that ended before now |
| TaskEffects.StartsPending | model/system_task.go:425-436 | the compare-and-set changes status, runner and time of a pending task and nothing else |
| TaskEffects.RenewsUnlapsed | model/system_task.go:582-607 | exactly the pair's unlapsed rows of one table get the new end |
| TaskEffects.DropsOwn | model/system_task.go:776-785 | exactly the pair's rows of one table are deleted |
| TaskEffects.DropsStale | model/system_task.go:742-774 | the scan deletes the row only while it still names the pair it read and is still lapsed |
| TaskEffects.FinishesUnderLease | model/system_task.go:552-580 | saving state and completing need the lease and write only the columns of that call |
| TaskEffects.RequeuesUnderLease | model/system_task.go:721-740 | a requeued task waits again under its key, without runner or error, and its own lock row is gone; without the lease nothing changes |
| TaskEffects.RetiresUnsupported | model/system_task.go:317-355 | exactly the pending and running tasks of types outside the list fail and lose key, runner and lock rows |
| TaskEffects.ExpiresRunning | model/system_task.go:649-680 | exports and account syncs wait again, every other running task has failed, and the lock rows stay |
| TaskEffects.ExpirySettlesWith | model/system_task.go:680-719 | the settled operation and its one audit carry outcome, code and the executor, or the planner when nobody executed it |
| TaskEffects.CreatesExport | model/managed_usage_export.go:128-168 | a well-formed export of a new id and row is created with its task, both waiting |
| TaskEffects.MovesExport | model/managed_usage_export.go:264-301 | start takes pending exports, progress and finish running ones, and a finish reads 100 on success and 0 on failure |
| TaskEffects.CancelsWaiting | model/managed_usage_export.go:303-327 | a cancel needs both rows pending and the owner or the root user |
| TaskEffects.RequeuesExportUnderLease | model/managed_usage_export.go:329-348 | under the lease export and task wait as if never started and the type rows of the pair are gone |
| TaskEffects.ExpiresExports | model/managed_usage_export.go:363-384 | expiring changes the status and time of the given exports only |
| TaskEffects.DeletesIdle | model/managed_usage_export.go:386-416 | export and task go together iff the caller may and the export is neither pending nor running |
| TaskEffects.MovesOperation | service/managedinstance/operation.go:141-322 | planning, queueing under the instance's key and starting an operation, with their guards |
| TaskEffects.EndsOperation | service/managedinstance/operation.go:332-527 | failing a queued operation and finishing a running one under the lease write outcome, code and one audit |
| TaskFence.FenceIsOwnRow | model/system_task.go:609-647 | the fence, which searches lock rows by task id, passes exactly when the row under the task's own type or (type, scope) names the pair and has not lapsed |
| TaskFence.MutualExclusion | model/system_task.go:609-647 | two pairs that pass the fence for one type or (type, scope) are the same pair, whatever clocks they read |
| TaskFence.MutualExclusionAlways | model/system_task.go:447-550 | the same after every run of statements from empty tables |
| TaskFence.TakeoverIsPermanent | model/system_task.go:721-818 | once a pair has lost its lock row or its running task, no renewal, requeue, expiry, release, retirement or rival claim restores it; only its own claim can |
| TaskFence.StaleWorkerNeverCommits | model/system_task.go:552-647 | after a takeover the fence fails for the old pair at every later clock and its completion, state, requeue and operation statements change no table |
| TaskFence.LateRenewal | model/system_task.go:582-607 | a lapsed lease becomes valid by a renewal exactly when that renewal read its clock before the lapse, addressed the right table and reaches past now |
| TaskFence.LateRenewalRevives | model/system_task.go:582-607 | a run in which a renewal read in the last second of the lease revives it a second later |
| TaskKeys.KeysAlways | model/system_task.go:132-194 | in every interleaving active keys are unique and, for keyed tasks other than usage exports, set iff the status is pending or running, and then equal to the key of the family |
| TaskKeys.KeysTellFamiliesApart | model/system_task.go:132-163 | with colon-free types the key text determines type and scope |
| TaskKeys.OneActivePerFamily | model/system_task.go:165-194 | at most one exclusive or scoped task of a family is active |
| TaskKeys.LookupFindsKeyHolder | model/system_task.go:252-263 | the active lookup by type and scope finds exactly the holder of that key |
| TaskKeys.UnstableScope | model/system_task.go:846-852 | a scope that normalises to another text the second time |
| TaskKeys.ScopeIsCutText | model/system_task.go:846-852 | a stored scope is the raw text without its outer blanks, cut after 128 characters |
| TaskKeys.NormalizedScopeIsStable | model/system_task.go:846-852 | normalising a stored scope again is the identity iff the cut at 128 left no trailing blank |
| ExportCancellation.CancelledTogether | model/managed_usage_export.go:303-327 | while both rows exist the export is cancelled iff its task is cancelled |
| ExportCancellation.CancelRacesClaim | model/managed_usage_export.go:303-327 | of a cancel and a claim's start the first wins and the second changes nothing; a cancel changes both rows or neither |
| ExportCancellation.CancelIsFinal | model/managed_usage_export.go:264-361 | no start, requeue, expiry or finish, fenced or not, leaves the cancelled state |
| ExportCancellation.PublishedStays | model/managed_usage_export.go:291-384 | a finished export stays succeeded or expired until it is deleted |
| ExportCancellation.ExpiryPassIsSafe | model/managed_usage_export.go:363-384 | ids read by the expiry pass still name finished files when the unguarded update runs, whatever happened in between |
| ExportQueue.PositionIsRank | model/managed_usage_export.go:246-262 | a pending export's position is the number of running ones plus its rank among the pending ones |
| ExportQueue.OtherPositions | model/managed_usage_export.go:246-255 | a running export reports one and an ended one zero |
| ExportQueue.PositionsAreConsecutive | model/managed_usage_export.go:246-262 | the positions of P pending exports behind R running ones are exactly R+1..R+P, each once, in ascending id order |
| LeaseSettlement.OneCompletionPerOperation | model/system_task.go:680-719 | over any run an operation has one completion audit once settled and none before |
| LeaseSettlement.SettledIsFinal | model/system_task.go:680-719 | a settled operation is never changed again |
| LeaseSettlement.ExpirySettles | model/system_task.go:649-719 | lease expiry makes the operation unknown iff it was running and writes remotely, failed otherwise, fails the task and appends one audit of that outcome |
| LeaseSettlement.RacingExpirersSettleOnce | model/system_task.go:649-719 | after the first of any number of racing expirers, with anything in between, the later ones change nothing and one audit exists |
| LeaseSettlement.ExpirySendsBack | model/system_task.go:649-680 | usage exports and account syncs return to pending, with their export record reset, and touch no operation or audit |
| ClaimMachine.StepsAreStatements | model/system_task.go:404-550 | every step of the claim and scan machine is at most one legal statement, so the theorems on interleavings hold of it |
| TaskOrphans.InvariantAlways | model/system_task.go:404-818 | the claim and scan invariant holds in every timely run |
| TaskOrphans.NoOrphanedWork | model/system_task.go:404-550 | every running task is named, with its runner, by exactly one lock row under its own key, or is about to be expired by the claim that took its lock |
| TaskOrphans.FullScanLeavesLiveLeases | model/system_task.go:742-774 | after a scan has worked through its rows every running task of its table has a lease that was live when the scan began, or is about to be expired by the claim that took its lock |
| TaskOrphans.EveryRunningTaskIsNamed | model/system_task.go:404-550 | when no claim stands before its mark, every running task is named, with its runner, by the row under its own key and by no other |
| TaskOrphans.FullScanLeavesOnlyFencedWork | model/system_task.go:742-774 | and after a full scan every task of its table that still runs passes the fence at the scan's clock |
| TaskOrphans.ScanHitsLiveLeaseIff | model/system_task.go:742-774 | a scan's mark takes away a live lease iff the row it read as lapsed now names the same task and its runner and is live |
| TaskOrphans.StartIsSafeIffStillNamed | model/system_task.go:425-444 | the compare-and-set to running leaves no orphan iff the lock row still names the claim or an expiry of the task is on its way |
| TaskLocks.StepKeepsAccount | model/system_task.go:404-550 | a lock row stays without a claim, a run or an owed release only when another process ends its task's run |
| TaskLocks.LocksAreGivenBack | model/system_task.go:404-550 | in every run, timely or not, in which nobody else ends the task's run, whatever lock rows its claims leave belong to a claim on its way, to the running task or to a release still to come |
| TaskOrphanWitness.LateStartOrphans | model/system_task.go:404-444 | without the timing hypothesis one late start, after a timely run from any state with two pending tasks under one free lock and no claim in flight, leaves an orphan |
| TaskOrphanWitness.LateStartHappens | model/system_task.go:404-444 | the same from the empty tables for two queued tasks of any type |
| TaskOrphanWitness.CrashOrphansIff | model/system_task.go:416-423 | a crash leaves no orphan iff the claimer was not before its mark of a running task that no row names and no other claim is about to expire |
| TaskOrphanWitness.CrashAfterStealOrphans | model/system_task.go:416-423 | a claimer that dies between stealing the lock of a running task and expiring that task leaves an orphan that no lock row names |
| TaskOrphanWitness.CrashHappens | model/system_task.go:416-423 | the same from the empty tables by a timely run |
| TaskOrphanWitness.ScanHitsLiveLease | model/system_task.go:742-774 | from every state with a pending task under its own lapsed row a scan can, by timely steps alone, fail the task while its fence passes and its lease has 60 seconds left |
| TaskOrphanWitness.LiveLeaseIsHit | model/system_task.go:742-774 | the same from the empty tables, after a first claimer died between its lock and its start |
| TaskStore.Store.InsertTask | model/system_task.go:165-194 | insertion succeeds iff the id is fresh and the active key is free, and otherwise changes nothing |
| TaskStore.Store.CreateScopedSystemTask | model/system_task.go:132-163 | a blank scope is refused, any other is stored normalised with its key |
| TaskStore.Store.AcquireLock | model/system_task.go:483-550 | insert, look-up and conditional update with other processes in between have the specified joint effect, report the task that was looked up, and leave the claim's own row when they succeed |
| TaskStore.Store.Claim | model/system_task.go:404-481 | a claim with other processes between any two of its statements has the specified joint effect, runs the task under the claimer iff it succeeds, and holds the fence when nothing came between lock and start; what a failed one gives back is FailedClaimLeavesNoLock |
| TaskStore.QuietClaim | model/system_task.go:404-481 | left alone a claim succeeds iff the task is pending and its lock is free or lapsed |
| TaskStore.QuietLock | model/system_task.go:483-550 | left alone the lock is taken iff its row is absent or ended before now, and the task it named is reported |
| TaskStore.FailedClaimLeavesNoLock | model/system_task.go:404-481 | a claim that fails, whatever others do between its statements, leaves no lock row that names its task and runner |
| TaskStore.ClaimIsItsTrace | model/system_task.go:404-481 | a claim among other processes is a legal run of single statements, theirs and its own, so the theorems on interleavings hold of it |
| TaskStore.ClaimIsItsStatements | model/system_task.go:404-550 | the single statements of a claim, taken without interference, have exactly the effect of the whole claim |
| TaskStore.Store.RenewSystemTaskLock | model/system_task.go:582-607 | a renewal succeeds iff an unlapsed row names the pair and changes rows of one table only |
| TaskStore.Store.ReleaseSystemTaskLock | model/system_task.go:776-785 | the pair's type rows are deleted, and its scope rows when it had no type row |
| TaskStore.Store.FinishSystemTask | model/system_task.go:787-818 | a finish takes effect iff the fence passes, clears the key and releases the lock |
| TaskStore.Store.RequeueSystemTask | model/system_task.go:721-740 | a requeue takes effect iff the fence passes |
| TaskStore.Store.MarkSystemTaskLeaseExpired | model/system_task.go:649-719 | the transaction has exactly the effect of the expiry statement |
| TaskStore.Store.RetireUnsupportedSystemTasks | model/system_task.go:317-355 | with an empty list nothing happens; otherwise the effect is the retirement statement's, and the count that of the pending and running tasks of types outside the list |
| TaskStore.Store.ExpireStaleSystemTaskLocks | model/system_task.go:742-774 | no stale row survives, live rows are untouched, and no task named by a stale row still runs |
| TaskStore.Store.CancelManagedUsageExport | model/managed_usage_export.go:303-327 | the two updates are undone together when the second matches nothing |
| TaskStore.Store.StartManagedUsageExport | model/managed_usage_export.go:264-280 | an export starts iff it is pending |
| TaskStore.Store.RequeueManagedUsageExport | model/managed_usage_export.go:329-348 | export and task go back together iff the fence passes, and the pair's type rows are deleted |
| TaskStore.Store.ExpireManagedUsageExports | model/managed_usage_export.go:363-378 | the ids are those of the succeeded exports whose positive expiry has been reached when they are read; exactly these are marked expired, and every other export is as the others left it |
| TaskStore.Store.DeleteManagedUsageExport | model/managed_usage_export.go:386-416 | export and task are deleted together iff the caller may and the export is not active; conflict is reported otherwise |
| ControlPlaneLease.RivalLeaseIsSafe | model/control_plane_lease.go:17-63 | renewing, releasing or trying again never alters a rival's unexpired lease |
| ControlPlaneLease.LeaseStore.TryAcquire | model/control_plane_lease.go:17-46 | the lease is taken iff absent, one's own or expired, under the trimmed texts |
| ControlPlaneLease.LeaseStore.Renew | model/control_plane_lease.go:48-56 | a renewal hits iff the row carries exactly the given name and holder |
| ControlPlaneLease.LeaseStore.Release | model/control_plane_lease.go:58-63 | only the holder's own row is deleted |
| ControlPlaneLease.AcquireThenRenew | model/control_plane_lease.go:17-56 | after a successful acquisition a renewal succeeds iff name and holder carry no surrounding blanks |
| LeaderElection.RunFits | service/control_plane_leader.go:63-106 | the cluster invariant holds in every run, with delayed statements and lost acknowledgements |
| LeaderElection.LeadershipOverlapIsBounded | service/control_plane_leader.go:63-106 | two nodes that believe they lead have both done so for less than d plus one second when iterations are at most d apart |
| LeaderElection.NoRivalBeforeLapse | service/control_plane_leader.go:63-106 | a leader whose last renewal is under 30 whole seconds old holds the row, and any other leader is a former one |
| LeaderElection.RivalKeepsLiveLease | model/control_plane_lease.go:17-63 | no step of a node, however late, alters a rival's live lease |
| LeaderElection.LeadershipChanges | service/control_plane_leader.go:76-97 | a node starts leading iff it takes a lease that is its own, run out or missing and hears of it; it stops iff its context ends or a renewal begun 30 seconds or more after its last one fails |
| LeaderElection.LeaderOutlivesFailedRenewal | service/control_plane_leader.go:86-96 | a renewal begun less than 30 seconds after the last one leaves the node leading, whether or not it reached the row or was acknowledged |
| LeaderElection.IterationBegins | service/control_plane_leader.go:76-88 | a waiting leader asks for more time iff 10 seconds have passed since its last renewal; a follower tries to acquire |
| LeaderElection.LeaseChanges | model/control_plane_lease.go:17-63 | which step writes the row and what it holds then, and which deletes it |
| ControlPlaneLeader.Leader.Iterate | service/control_plane_leader.go:76-97 | one iteration changes local variables and row as specified, and leadership is lost iff the node led, 30 seconds have passed since its last renewal and the row does not name it |
| ControlPlaneLeader.IterationInColumns | service/control_plane_leader.go:76-97 | a follower takes a lease that is free, its own or run out; a leader renews from 10 seconds on, keeps leading when that fails, and is lost from 30 seconds on |
| ControlPlaneLeader.Leader.Run | service/control_plane_leader.go:63-106 | the loop with its deferred release refines the iterated specification |
| ControlPlaneLeader.IterationIsSteps | service/control_plane_leader.go:76-97 | the loop's iteration equals the cluster's single statements taken without delay or loss, and touches no other node |
| ControlPlaneLeader.AloneNeverLost | service/control_plane_leader.go:63-106 | without rivals a node with a trimmed holder leads from its first reading on and never loses the lease |
| ControlPlaneLeader.BlankHolderIsLost | service/control_plane_leader.go:63-106 | a holder with surrounding blanks acquires and is lost at the first reading 30 seconds later |
| ArchiveDay.SameDateSameBoundary | service/managed_account_snapshot.go:578-583 | boundary <= t < boundary + 86400, the boundary is a local midnight, and dates are equal iff boundaries are |
| ArchiveDay.DatesIncrease | service/managed_account_snapshot.go:578-583 | calendar dates grow strictly with the day number |
| ArchiveDay.BoundaryIsMidnight | service/managed_account_snapshot.go:578-583 | the boundary is the last instant at or before the observation at 16:00 UTC, midnight at UTC+8 |
| ArchiveDay.DateHasItsNumber | service/managed_account_snapshot.go:578-583 | the date computed for a day has that day's number by the closed form of the Gregorian calendar |
| ArchiveDay.DateIsLocal | service/managed_account_snapshot.go:578-583 | an instant's date is the Gregorian date of its clock moved eight hours ahead |
| AccountSnapshots.RowExists | service/managed_account_snapshot.go:453-543 | a latest row exists iff some committed save or effective backfill addressed its key |
| AccountSnapshots.HoldsLastSuccess | service/managed_account_snapshot.go:483-543 | schema 4 and the payload, etag and observed time of the observation of the most recent successful save, whatever followed it |
| AccountSnapshots.HoldsLastAttempt | service/managed_account_snapshot.go:483-543 | time, status and error code of the attempt and the four window columns follow, column by column, from the most recent save of any outcome |
| AccountSnapshots.HoldsLegacyOrNothing | service/managed_account_snapshot.go:453-543 | before the first success the content columns are those of the legacy row if a backfill came first, and blank otherwise; a row nothing was saved to is the legacy one throughout |
| AccountSnapshots.ArchivesFirstOfDay | service/managed_account_snapshot.go:545-583 | a day's archive holds payload, etag and observed time of the observation of the first eligible success of that day, its window and capture time, unchanged by anything later |
| AccountSnapshots.NothingElseArchived | service/managed_account_snapshot.go:545-576 | a day has an archive iff an eligible success was observed on it |
| AccountSnapshots.EligibleKeys | service/managed_account_snapshot.go:563-576 | days are kept of the inventory and of the four preset outputs |
| AccountSnapshots.OneArchivePerBoundary | service/managed_account_snapshot.go:545-583 | two archived saves fall into one row iff key and day boundary agree |
| AccountSnapshots.RefusedSaveLeavesNoTrace | service/managed_account_snapshot.go:526-543 | a save whose lease check or encoding fails can be struck from any history without changing either table |
| AccountSnapshots.StaleWorkerNeverSaves | service/managed_account_snapshot.go:526-531 | a worker that lost its task changes no snapshot, whatever the queue does in between |
| SnapshotStore.Store.SaveSnapshot | service/managed_account_snapshot.go:483-543 | the upsert and archive have the joint effect the history laws speak of; a save is refused iff its data cannot be encoded or its task has lost the lease, and otherwise writes the columns of its observation under its key |
| SnapshotStore.Store.ArchiveDaily | service/managed_account_snapshot.go:545-561 | an archive row is written iff eligible, observed, non-empty and absent |
| SnapshotStore.Store.Backfill | service/managed_account_snapshot.go:453-481 | the legacy row is copied iff no row exists |
| SyncSchedule.ScheduleKeysDiffer | service/managed_account_snapshot.go:985-987 | the text key determines instance, kind and range |
| Text.DecimalWorth | service/managed_account_snapshot.go:985-987 | the decimal text of an instance number is worth that number |
| SyncSchedule.ScheduleStates | service/managed_account_snapshot.go:827-834 | the map built by the loop mirrors the fetched rows for every instance of the batch |
| SyncSchedule.SchedulerAgreesWithRefresh | service/managed_account_snapshot.go:329-348 | the scheduler's check is true iff the on-demand check is true for some preset, unless a Claude gateway lacks vendor metadata |
| SyncSchedule.GatewayLooksAtInventoryOnly | service/managed_account_snapshot.go:896-909 | the exact conditions under which the scheduler misses what the on-demand check would refresh, and under which it runs without anything being due |
| SyncSchedule.GatewayMissesOutputs | service/managed_account_snapshot.go:453-543 | a history of a backfill and a failed save that reaches the first |
| SyncSchedule.GatewayRunsForNothing | service/managed_account_snapshot.go:453-543 | a history that reaches the second |
| SyncSchedule.DueStaysDue | service/managed_account_snapshot.go:339-348 | both checks are monotone in now |
| SyncSchedule.DueInColumns | service/managed_account_snapshot.go:329-348 | what both checks look at: never attempted, 60 seconds after a failure, 900 after anything else |
| SyncSchedule.ArchiveDueInColumns | service/managed_account_snapshot.go:863-888 | the daily check asks for a run iff one of the five keys has no copy and was last attempted before the boundary or waits again |
| SyncSchedule.ManagedAccountRefreshDue | service/managed_account_snapshot.go:329-337 | the two-section check decides the specified predicate |
| SyncSchedule.ManagedAccountStandardSyncDue | service/managed_account_snapshot.go:896-928 | the loop over text keys decides the specified predicate of the rows |
| SyncSchedule.ManagedAccountDailyArchiveSyncDue | service/managed_account_snapshot.go:863-888 | due iff some required range is not archived for the day and is stale since the boundary or due again |
| SyncSchedule.ArchiveDueOverHistory | service/managed_account_snapshot.go:863-888 | in terms of the history of saves: due iff some required range has no eligible success observed that day and is stale |
| SupplierPolicies.ParentsAreOlderKeys | model/supplier_policy.go:9-25 | every runtime key and its parent are policy keys and no parent is a runtime key |
| SupplierPolicies.Extend | model/supplier_policy.go:27-37 | extending gives the same result for every iteration order and reports whether anything changed |
| SupplierPolicies.ExtendTwice | model/supplier_policy.go:27-37 | extending an extended policy changes nothing |
| SupplierPolicies.ExtendedLookup | model/supplier_policy.go:27-37 | an extended layer answers an unmentioned runtime key as its parent and any other key as before |
| SupplierPolicies.RuntimeParents | model/supplier_policy.go:20-37 | which older key each of the four runtime keys follows, and that no other key is added |
| SupplierPolicies.LegacyFlags | model/supplier_policy.go:65-72 | a supplier without overrides answers four keys by its flags and every other key with true |
| SupplierPolicies.InitialValues | model/supplier_policy.go:56-63 | the initial policy allows everything but managing proxies and uploading accounts |
| SupplierPolicies.MostSpecificDecides | model/supplier_policy.go:74-98 | a decision names the most specific layer that sets the key and has its value; silence everywhere is a global no |
| SupplierPolicies.Resolve | model/supplier_policy.go:74-98 | value and source of every key are those of the most specific layer that sets it |
| SupplierPolicies.VersionTellsRevisionsApart | model/supplier_policy.go:75-97 | equal version texts mean equal revisions in every layer |
| SupplierMigration.MigratedDecision | model/supplier_policy.go:101-160 | what every key of every layering becomes |
| SupplierMigration.DefaultsAfterwards | model/supplier_policy.go:101-134 | the global revision moves by one iff a runtime key is filled in, and missing global settings start at one |
| SupplierMigration.BindingsAfterwards | model/supplier_policy.go:147-158 | no row comes or goes, and a binding's version moves by one iff a runtime key is filled in |
| SupplierMigration.SuppliersAfterwards | model/supplier_policy.go:107-146 | flags never change, and a row of positive id without overrides gets them as overrides at version one |
| SupplierMigration.DecisionChangesIff | model/supplier_policy.go:27-160 | a runtime key's value or source changes in exactly three cases of which layers mention it and set its parent |
| SupplierMigration.MentionedKeyChanges | model/supplier_policy.go:27-160 | a key mentioned with null whose value changes although only the global layer sets its parent |
| SupplierMigration.MigrationKeepsOlderKeys | model/supplier_policy.go:65-160 | materialising legacy flags and extending all layers keeps value and source of every older key |
| SupplierMigration.RuntimeKeyFollowsParent | model/supplier_policy.go:21-37 | a runtime key no layer mentioned gets its parent's value and source in every layering |
| SupplierMigration.MigrationIsIdempotent | model/supplier_policy.go:101-160 | a second migration changes no policy, revision or version |
| SupplierMigration.Store.FetchPage | model/supplier_policy.go:109-112 | a page holds the first at most 500 unvisited ids in ascending order |
| SupplierMigration.Store.MaterialiseLegacy | model/supplier_policy.go:107-126 | the paged loop ends, visits every row without overrides and with a positive id exactly once, and materialises those |
| SupplierMigration.Store.Migrate | model/supplier_policy.go:101-160 | the whole transaction has the specified effect for every iteration order |
| AccessComparison.CompareMirrors | oauth/generic.go:534-558 | swapping the sides negates the comparison, for all values including not-a-number |
| AccessComparison.TransitiveIffFit | oauth/generic.go:534-598 | comparison is transitive on any three values iff no not-a-number stands beside unequal numbers and no text lies between two numbers whose prints are out of numeric order |
| AccessComparison.OrderOnNumbersAndOnTexts | oauth/generic.go:534-598 | it is transitive on every set of proper numbers and on every set of which at most one value reads as a number |
| AccessComparison.NotANumberEqualsAll | oauth/generic.go:534-558 | not-a-number compares equal to every number, so it does not fit beside one and two |
| AccessComparison.CompareCycles | oauth/generic.go:534-558 | three texts that compare in a cycle, and that do not fit |
| AccessPolicies.NormalTwice | oauth/generic.go:344-399 | normalisation is idempotent and keeps validity and invalidity |
| AccessPolicies.ComplementNegates | oauth/generic.go:466-493 | complementing an operator negates a condition iff the operator is one the evaluator knows |
| AccessPolicies.NegatedDecides | oauth/generic.go:401-493 | for valid normalised policies complementing every operator and swapping and/or at every level negates the decision |
| AccessMeaning.CompareMeans | oauth/generic.go:534-598 | the comparison is positive iff the left value is greater: as numbers when both read as numbers, at the first differing character of the trimmed prints otherwise |
| AccessMeaning.ComparisonOperators | oauth/generic.go:466-482 | gt, lt, gte, lte, eq and ne, each in terms of which side is greater |
| AccessMeaning.SearchOperators | oauth/generic.go:466-493 | exists and not_exists, in and not_in, contains and not_contains, each in terms of the path, the list and the value found |
| AccessMeaning.OperatorsOnNumbers | oauth/generic.go:534-548 | on two proper numbers the comparisons are those of arithmetic |
| AccessMeaning.OtherOperators | oauth/generic.go:466-493 | no other word is ever true |
| AccessMeaning.InfixMeans | oauth/generic.go:610-621 | a text contains another iff it splits into something, that text and something |
| AccessMeaning.TreeMeaning | oauth/generic.go:401-452 | an empty tree admits, "or" asks for one part and any other word for all of them |
| AccessMeaning.NormalMeans | oauth/generic.go:344-399 | what every column of a normalised tree holds |
| Text.TrimCutsBlanks | oauth/generic.go:344-399 | trimming cuts blanks off both ends and nothing else |
| Text.LowerMovesCapitals | oauth/generic.go:496-498 | lower-casing moves the letters A to Z and nothing else |
| AccessCheck.NoProblemMeansValid | model/custom_oauth_provider.go:207-247 | a tree is accepted iff every node is well formed |
| AccessMeaning.ProblemIsTheFirst | oauth/generic.go:344-399 | the reported problem is the leftmost one, at its true index and with the word at fault |
| AccessMeaning.SoundIsValid | oauth/generic.go:344-399 | a tree is valid iff every node has a known logic word, asks for something and has well-formed conditions |
| AccessCheck.ValidateAccessPolicy | oauth/generic.go:344-399 | the login-time validator reports the first problem and otherwise yields the normalised tree |
| AccessCheck.ValidateAccessPolicyPayload | model/custom_oauth_provider.go:207-247 | the store-time validator reports the same first problem for every tree |
| AccessCheck.DenialNamesFalseCondition | oauth/generic.go:401-452 | a failure is recorded iff the policy does not hold, and names a condition of the tree that is false on the body |
| AccessMeaning.BlameIsTheFirst | oauth/generic.go:401-452 | under "or" the first alternative is blamed, otherwise the first condition that fails or, when all hold, what the first failing group blames |
| AccessCheck.EvaluateAccessPolicy | oauth/generic.go:401-452 | the short-circuit evaluation equals the boolean meaning and returns the specified first failure |
| AccessCheck.CheckLogin | oauth/generic.go:266-280 | a login is rejected as misconfigured iff the stored tree is invalid, admitted iff its normal form holds, and a denial carries field, operator, expected and found value of a condition that is false |
| RateLimiter.InMemoryRateLimiter.Ask | common/rate-limit.go:45-70 | answer and new queues are as specified |
| RateLimiter.InMemoryRateLimiter.ClearExpiredItems | common/rate-limit.go:28-42 | one janitor round removes exactly the idle queues |
| RateLimiter.AnswersAreExact | common/rate-limit.go:45-70 | a request is admitted iff fewer than max admissions of the complete log are younger than the duration |
| RateLimiter.AdmissionsAreLogged | common/rate-limit.go:45-70 | the requests the limiter itself let through are those the limiter with a complete log would let through |
| RateLimiter.WindowsHoldAtMostMax | common/rate-limit.go:45-70 | no window of the duration, wherever it starts, contains more than max requests that the limiter let through |
| RateLimiter.JanitorIsInvisible | common/rate-limit.go:28-42 | removing every sweep from a history changes no answer |
| RateLimiter.LongWindowsAreForgotten | common/rate-limit.go:28-42 | for any longer window there is a history in which the janitor makes the limiter let more than max requests into one window |
| ExportSchedules.InvariantAlways | model/managed_account_export_schedule.go:61-100 | versions and slots increase along the runs and the active run is the unfinished one, in every history |
| ExportSchedules.RunsAreDistinct | model/managed_account_export_schedule.go:61-100 | two runs differ in version and, when scheduled, in slot; at most one is unfinished |
| ExportSchedules.ClaimTakesPlannedSlot | model/managed_account_export_schedule.go:61-100 | a scheduled claim consumes the planned slot and moves it on, a manual one leaves it, and with an active run the new one is skipped |
| ExportSchedules.OneClaimPerVersion | model/managed_account_export_schedule.go:68-83 | after one claim of a version, no claimer holding that or an older copy ever succeeds |
| ExportSchedules.HistoryOfMail | service/accountexport/worker.go:313-461 | seen from one mail, every history of a schedule is a legal history of a delivery by itself |
| ExportSchedules.MailsAreNotRepeated | service/accountexport/worker.go:334-461 | in every history of a schedule a mail is started at most once more than the server rejected it and users asked for it, and without a request at most four times |
| ExportSchedules.StartsBelongToActiveRun | service/accountexport/worker.go:354-369 | a mail is only started while its run is the unfinished one of an enabled plan, and each start moves the plan's version |
| ExportScheduleStore.Store.ClaimAccountExportOccurrence | model/managed_account_export_schedule.go:61-100 | a claim succeeds iff its arguments are valid, the row still matches the copy and the occurrence is new, with the stated rows |
| ExportScheduleStore.Store.ExecuteOccurrence | service/accountexport/worker.go:149-210 | the transaction skips, fails or starts the run with a mail for each recipient, and rolls back a refused claim or a recipient listed twice |
| ScheduleEffects.RefusedExecution | service/accountexport/worker.go:149-210 | a claim whose call, plan or occurrence does not fit, or whose recipients repeat, changes nothing |
| ScheduleEffects.SkippedExecution | model/managed_account_export_schedule.go:84-100 | while another run is active the new one is recorded as skipped |
| ScheduleEffects.PreparedExecution | service/accountexport/worker.go:149-210 | a prepared occurrence becomes the active run with one waiting mail for each recipient |
| ScheduleEffects.UnpreparedExecution | service/accountexport/worker.go:149-210 | an unprepared one ends at once with its code, and the plan is disabled iff rights or the mail server are missing |
| ExportScheduleStore.Store.CreateMails | service/accountexport/worker.go:203-208 | one new mail for each recipient, refused iff one is listed twice |
| ExportScheduleStore.Store.CancelUnsent | service/accountexport/plans.go:219-221 | exactly the mails not yet started are cancelled |
| ExportScheduleStore.Store.Suspend | service/accountexport/worker.go:313-320 | the plan is disabled, its version moved and its unsent mails cancelled |
| ExportScheduleStore.Store.FinishRun | service/accountexport/worker.go:322-332 | ending a run ends it only if it was under way, cancels its unsent mails and releases the schedule iff the run is the active one |
| ExportScheduleStore.Store.StartMail | service/accountexport/worker.go:354-369 | a mail is marked as sending iff its run is active on an enabled plan, the copy is current and the mail is startable; the guard moves the plan's version |
| ExportScheduleStore.Store.SettleMail | service/accountexport/worker.go:383-408 | only the worker that holds the mark settles a mail, with the status the reply calls for |
| ExportScheduleStore.Store.RecoverMails | model/managed_account_export_schedule.go:102-107 | exactly the sending mails whose lease has run out become uncertain |
| ExportScheduleStore.Store.RetryMail | service/accountexport/worker.go:410-461 | a retry reopens run and mail together iff no other run is active and the mail is as the user saw it, and otherwise changes nothing |
| ScheduleEffects.FinishEnds | service/accountexport/worker.go:322-332 | what a finish leaves in plan, run and mails |
| ScheduleEffects.SendIsGuarded | service/accountexport/worker.go:354-369 | what a start leaves in plan and mail, and when it does nothing |
| ScheduleEffects.SettleAndRecover | service/accountexport/worker.go:383-408 | settling touches one mail, recovering those whose mark has run out |
| ScheduleEffects.RetryReopens | service/accountexport/worker.go:410-461 | what a retry leaves in plan, run and mail, and when it does nothing |
| ScheduleEffects.EditIsFenced | service/accountexport/plans.go:148-269 | an edit needs the version that was read, and a plan left disabled loses its unsent mails |
| ScheduleEffects.SuspendAndWithdraw | service/accountexport/worker.go:313-320 | suspending disables the plan and cancels what is unsent |
| ScheduleEffects.StartMarks | service/accountexport/worker.go:354-369 | a start marks a waiting mail of the version that was read for 120 seconds |
| ScheduleEffects.SettleFiles | service/accountexport/worker.go:383-408 | which status each reply gives the mail, and that a temporary refusal is retried three times |
| ScheduleEffects.RecoverAndCancel | model/managed_account_export_schedule.go:102-107 | a mark that has run out makes the mail uncertain, a cancel takes the waiting ones |
| ScheduleEffects.ReopenAsks | service/accountexport/worker.go:410-461 | a failed mail is reopened as it was seen, an uncertain one only with a confirmation, with all its tries again |
| ExportDeliveries.StartsAreAccountedFor | service/accountexport/worker.go:354-408 | over any run every start of a delivery after the first is paid for by an explicit temporary rejection or an explicit request |
| ExportDeliveries.AtMostFourStarts | service/accountexport/schedule.go:70-77 | without a request a new delivery is started as often as its counter says, at most four times |
| ExportDeliveries.InterruptedIsNeverReplayed | model/managed_account_export_schedule.go:102-107 | an attempt recovered after its lease stays uncertain and nothing is sent until a user confirms a retry |
| TwoFactorCounter.FiveMeansLock | model/twofa.go:121-167 | under every interleaving a stored count of five or more comes with a lock time |
| TwoFactorCounter.CounterIsExact | model/twofa.go:121-167 | the counter equals the number of updates that took effect |
| TwoFactorCounter.LiveLockFreezes | model/twofa.go:133-158 | while a lock is live no attempt changes the row |
| TwoFactorCounter.GuessesAreBounded | model/twofa.go:121-167 | in a span of time at most five failures plus one per whole lockout are counted, however many attempts race |
| TwoFactorCounter.ConflictMeansRivalChange | model/twofa.go:149-158 | a try fails only if the row changed after its own read |
| TwoFactorCounter.UpdateOfAttempt | model/twofa.go:121-167 | an attempt adds one failure to the row it read, and from the fifth on a lock of five minutes |
| TwoFactorCounter.SuccessForgets | model/twofa.go:114-119 | a success forgets failures and lock |
| TwoFactorCounter.OutcomeTells | model/twofa.go:121-167 | a recorded failure is what the row holds, a lock was live at one of the tries, and a conflict means that rivals changed the row under every try |
| TwoFactorCounter.AloneIsRecorded | model/twofa.go:121-167 | an undisturbed attempt is recorded at once, unless the row is locked or gone |
| TwoFactorCounter.AttemptIsItsTrace | model/twofa.go:121-167 | the retry loop among rivals has the effect of the statements it and they send, so the theorems on interleavings hold of it |
| TwoFactorCounter.TwoFactorStore.IncrementFailedAttempts | model/twofa.go:121-167 | the bounded retry loop with interference has the specified effect and outcome |

## Left out

- SQL, GORM, dialects, isolation levels and database errors: a statement or transaction is atomic and either matches or does not; auto-increment ids and `BeforeCreate` timestamps are parameters or absent.
- JSON encoding and decoding: payload, state and results are opaque texts; the only failure kept is that snapshot data cannot be encoded.
- Unicode: trimming and lower-casing are modelled on ASCII texts, and the 128-character scope limit counts Dafny characters.
- Task payloads, `created_at` columns, listing and paging queries: no property rests on them.
- `UpdateCompletedSystemTaskState` and `RunOperation` without a lease: both write outside the fence by design.
- Deleting an instance, planning checks and remote execution of operations: operations are planned, queued, started and finished as environment steps with the guards of `service/managedinstance/operation.go`.
- Remote collection, HTTP, SMTP, artifacts and permissions of exports: their outcomes are parameters of the steps.
- Access timestamps and the 30-day cleanup of custom-range snapshots: the snapshot theorems speak of histories without that cleanup, which never touches inventory or preset rows.
- Dates are (year, month, day) triples; the formatted text is not modelled.
- The time of the next retry of a mail is not modelled.
- TaskStore.Store.ExpireStaleSystemTaskLocks: states the scan run alone; with other processes between its statements the scan is part of the claim and scan machine, whose theorems say what then holds.
- ExportScheduleStore.Store.ExecuteOccurrence: does not create the export task and record of the same transaction, which belong to the task tables; the run holds the task's id.
- ExportScheduleStore.Store.RetryMail: does not include the checks made before the transaction that the file has not expired, the owner may still read it and the mail server is configured; a call that fails them changes nothing.
- TaskKeys.NormalizedScopeIsStable: counts characters and ASCII blanks, where the source cuts after 128 bytes and trims Unicode space.
- The wall-clock arithmetic of `Schedule.Next`: the next slot is a parameter that lies in the future.
- `gjson` path syntax, number formatting and parsing: a body is a function from path to value, printing and parsing are functions of the context, floating-point rounding is ignored.
- ValidateAccessPolicy: rewrites the tree as a value rather than in place, and says nothing about the half-rewritten tree of a failed validation, which the caller discards.
- Extend: returns the extended map instead of changing the caller's map in place; sharing of the boolean cells between layers is not modelled.
- A stored policy of the JSON text `null`, which is neither SQL NULL nor a map: not modelled.
- Ask: assumes a non-negative maximum, because the source panics on a negative one for a new key; zero behaves as one.
- The Redis rate limiter and object cache: no guarantee is stated for them.
- Backup codes, TOTP codes and enabling two-factor authentication: `Clear` stands for every full save after a success; a save that re-inserts a row deleted meanwhile is not modelled, nor is rounding of lock times by the database.
- Leader election: a cancelled context releases the lease only when the node led; `StartControlPlaneLeader` and the callbacks are not modelled.
