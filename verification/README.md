# Verified model of the sharded Redis backup scheduler

This project models the part of the operator that schedules, runs and records backups of
sharded Redis clusters, and proves what it promises over all runs. Beside it stand four
smaller parts that the scheduler relies on or that share its methods: the retention tags of
uploads, the server order built from the Sentinel status, the pod index of Redis nodes, and
the defaulting of Tekton tasks.

`dafny verify dfyconfig.toml` checks everything.

| file | what it models |
|---|---|
| `Text.dfy` | decimal printing and parsing, the order on strings, substring search |
| `Sorting.dfy` | what a call to the sort package may assume and promises |
| `Backups.dfy` | the persisted list of backups: order, search, history limit |
| `Threads.dfy` | the thread manager: ownership of keys, starting, stopping, its mutex |
| `Runners.dfy` | the backup runner: worker, timer and listener as interleaved steps |
| `Failures.dfy` | runners that fail, are cancelled or time out |
| `Sizes.dfy` | the recorded size of a backup |
| `Saving.dfy` | the save stage as the worker runs it |
| `Clusters.dfy` | shards, their servers, and the choice of a read-only slave |
| `Controller.dfy` | phases 2 to 4 of a reconcile, as methods and as one function |
| `Phases.dfy` | what each phase does to a consistent list, entry by entry |
| `Settling.dfy` | which pending backups are dropped; how soon a frozen world comes to rest |
| `World.dfy` | every run: reconciles, stale reads, refused updates, other owners, clean-ups, restarts, runner steps |
| `Keeping.dfy` | the runner of a running backup stays in the thread map |
| `Recording.dfy` | what is recorded about running backups, and whether it is true, over every run |
| `Completion.dfy` | a backup recorded as completed was saved, uploaded and checked |
| `Dropping.dfy` | which pending backups are dropped, over every run |
| `Retries.dfy` | repeated starts of one backup |
| `Starvation.dfy` | what becomes of running backups while no reconcile gets past phase 2 |
| `Scenarios.dfy` | runs from the initial state in which the shortcomings occur |
| `Retentions.dfy` | names, labels and retention of uploads |
| `RedisNodes.dfy` | pod names, addresses and roles of a RedisShard |
| `TektonTasks.dfy` | defaulting of the Tekton tasks of a System |

The source changes the status list, the thread map and the task list in place; they are fields
of the classes `ShardedRedisBackupStatus`, `Manager` and `SystemSpec` here, and the methods are
proved equal to functions on the old values. Whole runs are stated over those functions.

## What is assumed

- The clock never goes back. A reconcile reads it once (`now`) and ends at some later reading.
- An instant is a number of milliseconds. All instants of one run print with the same number of
  digits (13 from 2001 to 2286). `Backups.NewerIsLaterExactly` says what happens without that.
  A real clock is finer: a reading within the millisecond of an instant, but after it, starts a due
  backup where a reading at the instant drops it.
- The cron schedule is a set of instants, and its `Next` is the least one strictly after its argument.
  A schedule that parses but never matches, such as `0 0 30 2 *`, is excluded: its `Next` is the zero
  time, which the code does not check. It then schedules a backup for the year 1, which is due at once
  and, once ended, is scheduled again under the same instant and runner id, so that the order and the
  uniqueness shown here are lost (`Phases.EndedInstantListedTwice`).
- Shard names are distinct. Servers of one status have distinct ids. Aliases may change: the pool shares
  one server object between controllers and sets its alias when one of them passes it
  (`internal/pkg/redis/server/pool.go:45-49`), so that the alias is read anew in every reconcile. Results
  that need the alias of the start say so.
- A call to Redis or S3 that was given the context of a backup fails once that context is cancelled, as it is
  when the timer fires. The remote upload is not given the context and may still finish.
- A thread surely answers that it can be deleted if its time has passed when the reconcile starts, and
  never if it has not passed when the reconcile ends.
- Shard names of uploads hold no `_` and no `/`. Years have four digits. Uploads may overlap and take any time;
  `Retentions.RetentionExactly` alone takes uploads of a shard as serial, and tags as chosen within
  four days of the timestamp. The latter holds for timeouts below that, since the listings fail once the
  backup has timed out; the upload itself does not stop then. `Retentions.RotatesExactly` needs neither.
- A reconcile of this resource is one step of a run, and reconciles of the resource follow each
  other; the controller sets no concurrency (`internal/controller/shardedredisbackup_controller.go:293-298`).
  Between two steps anything else may happen. What changes while a reconcile goes on is the status of
  runners, each of which it reads once: a step of a runner before that read counts as one before the
  reconcile, a later one as one after it. Runner steps are not tied to the clock for this reason.
- A status update may be refused, and a reconcile may read any version of the status the API server
  ever held; it can only overwrite the last one.
- In a run the runner's `Start` is one step. That the worker may act before `Start` returns is part of
  the protocol in `Runners.dfy`.
- A sort of elements of which no two are tied is the reference sort of `Sorting.dfy`;
  `Sorting.SortOutcome` shows that there is no other outcome.

## Where the code falls short

Each point names the exact condition under which the promise fails, and a concrete witness where the
condition alone does not show that this happens.

- A status read between the writes of `Finished` and `Error` records a failed backup as completed; one read
  between the writes of `Finished` and `BackupFile` records a completed backup without its file, and one read
  before `FinishedAt` is written, without its finish time; the entry never changes after that
  (`Recording.RecordedTruthExactly`, `World.EntriesOnlyAdvance`; `Runners.TornReadPossible`,
  `Runners.UnfiledReadPossible`).
- After an announced timeout a worker that had been told the size before can still change the recorded one
  (`Sizes.SizeChangesExactly`, `Sizes.SizeChangesAfterTimeout`).
- A worker whose runner timed out before it had the answer of the check never ends: once it fails it waits for
  ever on a channel that nobody reads (`Failures.TimeoutLeaksWorker`).
- A worker that is done before `Start` returns is announced as a success of size zero
  (`Sizes.SizeWrittenExactly`, `Sizes.SizeLostAtStart`).
- A pending backup whose instant equals the clock reading of a scheduling reconcile is dropped without
  being run (`Dropping.DroppedExactlyAtItsInstant`, `Scenarios.DropReachable`).
- As long as every reconcile stops at phase 2, as while a shard has a due backup and no read-only slave,
  no outcome is recorded and nothing is scheduled for any shard, while runners still expire; their outcomes
  are then lost (`Starvation.HeldUpBackupIsLost`, `Starvation.BlockedBackupIsLost`, `Recording.NotFoundExactly`,
  `Scenarios.BlockedLosesOutcome`).
- A running backup whose server changes its alias is recorded as "runner not found", however young its runner
  (`Recording.RecordsTrueOutcome`, `Scenarios.AliasLosesRunner`).
- A second runner works for one shard and instant when a start is repeated under another alias
  (`Retries.SecondRunnerExactly`, `Scenarios.SecondRunnerReachable`).
- Two shards share a runner id when their names contain dashes in unlucky places (`Runners.IDExact`,
  `Runners.IDAmbiguous`).
- Resource `b/x` matches, and cleans up, the threads of `a-b/x` (`Threads.OwnershipTest`,
  `Threads.NamespaceSuffixCollides`).
- `stopThread` keeps the mutex exactly when the key is missing; its two callers never get there
  (`Threads.Manager.StopThread`, `Threads.Manager.ReconcileThreads`).
- With a history limit of zero every scheduling reconcile of a resource with shards writes an empty list, so that
  no new backup is ever run (`Settling.ZeroLimitRestsExactly`).
- Entries whose instants print with different digit counts may be listed in the wrong order
  (`Backups.NewerIsLaterExactly`, `Backups.OlderListedFirst`).
- With an S3 path that is not clean every upload is kept for 90 days, and the check indexes an empty
  list; with uploads that overlap two of one day can be (`Retentions.RotatesExactly`,
  `Retentions.CheckListsUpload`, `Retentions.OverlapKeepsBoth`).
- The address of a pod of unknown role cannot be looked up by its index (`RedisNodes.IndexOfAddressOfIndex`).
- Defaulting twice differs from defaulting once for a task that is named like a default with variables and
  has no configuration (`TektonTasks.PassTwiceExactly`, `TektonTasks.SystemTasksTwice`).

## Model

| member | source | states |
|---|---|---|
| `World.AlwaysConsistent` | internal/controller/shardedredisbackup_controller.go:119-290 | In every reachable world (stale reads, refused updates, other owners, clean-ups, restarts) every accepted list is strictly newest first, a pending or running backup is scheduled strictly later than every other one of its shard, whatever was started was due, and a running backup names its server. |
| `World.NeverTwoActive` | internal/controller/shardedredisbackup_controller.go:119-290 | In every accepted list of every run a shard has at most one pending or running backup, and its instant is strictly later than those of the other entries of the shard. |
| `World.EntriesOnlyAdvance` | internal/controller/shardedredisbackup_controller.go:157-219 | Between any two versions of the status a backup only moves forward (Pending, Running, then a final state), and an entry in a final state is never altered. |
| `World.StartedOnce` | internal/pkg/reconcilers/threads/manager.go:40-61 | While a key stays in the thread map, whatever else happens, it keeps its runner and no other runner is started under it. |
| `World.ReachableSettles` | internal/controller/shardedredisbackup_controller.go:119-248 | From every reachable world, with clock, cluster, spec and runners frozen, history limit at least 1 and updates accepted, at most three reconciles write the status; afterwards it stays the same. |
| `World.ManagerTurn` | internal/pkg/reconcilers/threads/manager.go:83-105 | One ReconcileThreads for jobs of one owner succeeds, keeps every surviving key on its runner, starts exactly the runners that the map newly points to, and removes only threads whose time has passed. |
| `World.ThreadsStep` | internal/pkg/reconcilers/threads/manager.go:40-120 | Every event of a run keeps the thread map and the runners consistent, and only clean-ups and restarts lose threads that are at most two timeouts old; the clock never goes back. |
| `Retries.StartLeavesRunner` | internal/controller/shardedredisbackup_controller.go:136-174 | A reconcile that starts a backup leaves its key in the thread map whether or not its status update is accepted. |
| `Retries.KeyStaysUntilExpiry` | internal/pkg/redis/backup/manager.go:64-69 | Unless a restart or a clean-up takes it, a key stays in the map with the same runner until that runner is more than two timeouts old. |
| `Retries.RetryStartsNothing` | internal/pkg/reconcilers/threads/manager.go:40-61 | Two reconciles that start the same backup under the same server alias, whatever happened to the update of the first: until the first runner is more than two timeouts old, no second runner is started. |
| `Retries.StartsNewExactly` | internal/pkg/reconcilers/threads/manager.go:40-61 | A reconcile that starts a backup starts a new runner if and only if its key is not in the map. |
| `Retries.SecondRunnerExactly` | internal/controller/shardedredisbackup_controller.go:136-174 | Of two reconciles that start the same backup, the first runner being young and nobody else making a runner for the key of the second: the second starts another runner if and only if it does so under another alias. |
| `Scenarios.SecondRunnerReachable` | internal/controller/shardedredisbackup_controller.go:132-174 | A refused update followed by another least read-only slave starts a second runner for one shard and instant while the first works. |
| `Starvation.HeldUpFreezes` | internal/controller/shardedredisbackup_controller.go:123-178 | While every reconcile of the last list stops at phase 2, over any run, every running backup stays as it is. |
| `Starvation.HeldUpBackupIsLost` | internal/controller/shardedredisbackup_controller.go:166-205 | If meanwhile the runner of a running backup gets more than two timeouts old and one more reconcile comes by, the first reconcile that gets past phase 2 records "runner not found", whatever the runner had to tell. |
| `Starvation.BlockedFreezes` | internal/controller/shardedredisbackup_controller.go:123-178 | While one shard has a due backup and no slave to run it on, over any run, that backup stays pending and due, and every reconcile of the last list stops at phase 2. |
| `Starvation.BlockedBackupIsLost` | internal/controller/shardedredisbackup_controller.go:123-205 | So a running backup of another shard is lost: one shard is blocked, then reconciles such as the one that starts it stop at phase 2 as well, and the first to get past it records "runner not found". |
| `Scenarios.BlockedLosesOutcome` | internal/controller/shardedredisbackup_controller.go:123-205 | A run from the initial state in which a runner announces its success, its outcome is not read because another shard has no slave, the slave comes back, and "runner not found" is recorded. |
| `Starvation.OldRunnerStops` | internal/pkg/reconcilers/threads/manager.go:96-102 | Every reconcile stops a runner of its resource that is more than two timeouts old when it starts, unless it makes a runner for the same key. |
| `Recording.NotFoundExactly` | internal/controller/shardedredisbackup_controller.go:189-205 | A reconcile past phase 2 records "runner not found" if and only if the cluster lists the server, and the key under its current alias is not in the map or is stopped by this reconcile; surely if its runner is more than two timeouts old at the start, only if it is at the end. |
| `Recording.EndsExactly` | internal/controller/shardedredisbackup_controller.go:184-227 | In every run, what an accepted reconcile past phase 2 makes of a running backup: if no server of any shard has the recorded id it ends as Unknown, "server not found in cluster", and only then; it stays running if and only if the server is listed, the key under its current alias is in the map after the stops, and that runner has not finished; else the entry is replaced. |
| `Recording.NotFoundWhenOld` | internal/pkg/redis/backup/manager.go:64-69 | In every run it does so only if the runner the backup was recorded under is more than two timeouts old or the server has another alias now, and surely if it is that old, unless a later runner has taken the key. |
| `Scenarios.AliasLosesRunner` | internal/pkg/redis/server/pool.go:45-49 | A run from the initial state in which a young runner is recorded as "runner not found" because its server got an alias. |
| `Scenarios.RecordedAfterTwoTimeouts` | internal/pkg/redis/backup/manager.go:64-69 | A run in which a runner exactly two timeouts old is still in the map and its success is recorded. |
| `Keeping.RunnerStays` | internal/pkg/redis/backup/manager.go:64-69 | In every run, from the step at which a backup is recorded as running and whatever happened before: its runner is in the map under the key of the recorded alias, unless a restart or a clean-up has taken the key since, or the runner is more than two timeouts old. |
| `Keeping.FindSince` | internal/controller/shardedredisbackup_controller.go:157-174 | Every entry of the last list of every run was newly listed at some step. |
| `Recording.RecordsTrueOutcome` | internal/controller/shardedredisbackup_controller.go:184-221 | In every run, a reconcile past phase 2, while the runner is at most two timeouts old and its key was spared since it was recorded: it records what the runner reports, if the server is listed under the alias of the start; it says "runner not found" if and only if the server is listed under another alias and nothing is under that key. |
| `Recording.RecordedTruthExactly` | internal/controller/shardedredisbackup_controller.go:207-220 | What such a reconcile records of a finished runner whose server has kept its alias: the state is its true outcome if and only if the status was not read before the error was written; it is Completed with the file of the upload if and only if the runner succeeded and had written the file; nothing but the size can change later if and only if the event was offered, and then it stays so for the rest of the run. |
| `Recording.ReportExactly` | internal/controller/shardedredisbackup_controller.go:207-220 | The same for one report, with every field of the entry: a failed one shows the error of the runner or the timeout, a completed one file, size and finish time of the status; Completed without the file of the upload is recorded exactly when the status is read right after the write of Finished. |
| `Recording.OutcomesKept` | internal/pkg/redis/backup/manager.go:116-156 | In every run, what a runner has announced stays, whatever else happens. |
| `Completion.AlwaysBacked` | internal/controller/shardedredisbackup_controller.go:207-219 | In runs in which no read of the runner of a backup comes before its error is written, each entry of that backup ever recorded as Completed has a runner under a key for it that saved, uploaded and checked, and shows the file of that runner or none; if no read comes before the event is offered, it shows file, size and finish time for good. |
| `Completion.CompletedMeansDone` | internal/controller/shardedredisbackup_controller.go:157-219 | With shard names free of dashes that runner belongs to the same resource, shard and instant, and saw LASTSAVE rise above a reading taken before BGSAVE, then the upload, then the check; the recorded file, size and finish time are as above. |
| `Completion.FileIsUpload` | internal/pkg/redis/backup/manager.go:148 | The recorded file is the target path and the name of the upload. |
| `Completion.FilesApart` | internal/pkg/redis/backup/manager.go:148 | Runners of one reconcile for different shards upload to different places. |
| `Keeping.NeighbourSpares` | internal/pkg/reconcilers/threads/manager.go:110-118 | A clean-up by another resource of the same namespace never takes the thread of a running backup whose runner id holds no slash. |
| `Completion.KeyNamesOwner` | internal/pkg/reconcilers/threads/manager.go:141-143 | A key names its owner and its thread id. |
| `Dropping.AlwaysOnSchedule` | internal/controller/shardedredisbackup_controller.go:238-241 | In runs on a fixed schedule, no instant of the schedule lies after the clock and before a pending backup. |
| `Dropping.DroppedExactlyAtItsInstant` | internal/controller/shardedredisbackup_controller.go:261-269 | In runs on a fixed schedule, with room in the history, a reconcile drops a pending backup of a monitored shard if and only if its clock shows the very instant of the backup, no due backup can run or is stuck, no running backup has news, and scheduling is on. |
| `Scenarios.DropReachable` | internal/controller/shardedredisbackup_controller.go:238-290 | Two reconciles from the initial state reach such a drop, for any shard and any instants after the first reconcile. |
| `Settling.PendingDroppedExactly` | internal/controller/shardedredisbackup_controller.go:123-290 | The same for one reconcile of any consistent list. |
| `Settling.PendingDropped` | internal/controller/shardedredisbackup_controller.go:238-290 | It does occur: a lone pending backup, reconciled at its instant, is dropped. |
| `Settling.NotDueWhenSettled` | internal/controller/shardedredisbackup_controller.go:123-178 | Phase 3 is not reached while a monitored shard has a due backup. |
| `Settling.RescheduleDrops` | internal/controller/shardedredisbackup_controller.go:255-289 | Phase 4 replaces a pending backup of a listed shard exactly when it is for another instant than the next one. |
| `Settling.RescheduleTwice` | internal/controller/shardedredisbackup_controller.go:251-290 | With history limit at least 1, rescheduling a second time changes nothing and reports no change. |
| `Settling.NextRank` | internal/controller/shardedredisbackup_controller.go:166-248 | A reconcile that writes is followed by one of a strictly later phase or by a quiet one; a quiet one is followed by a quiet one. |
| `Settling.SettlesInThree` | internal/controller/shardedredisbackup_controller.go:119-248 | Of repeated reconciles in a frozen world at most the first three write. |
| `Settling.QuietExactly` | internal/controller/shardedredisbackup_controller.go:119-249 | A reconcile writes nothing if and only if no backup can be started, and either some due backup has no slave, or no running backup has news and schedule and history ask for no change. |
| `Settling.PhaseExactly` | internal/controller/shardedredisbackup_controller.go:119-249 | How a reconcile ends, in all cases: which of the three writes, a retry for want of a slave, a bad schedule, or idle. |
| `Settling.ZeroLimitRestsExactly` | internal/controller/shardedredisbackup_controller.go:284-289 | With a history limit of zero a scheduling reconcile leaves an empty list and an empty list stays empty; it writes nothing if and only if a due backup has no slave, or there is no news and scheduling is off or there are neither shards nor entries. |
| `Phases.RunPendingList` | internal/controller/shardedredisbackup_controller.go:123-164 | Phase 2 moves exactly the due backups of monitored shards that have a read-only slave, each to the slave with the least id, and changes nothing else. |
| `Phases.StartedNames` | internal/controller/shardedredisbackup_controller.go:125-162 | The started entry, field by field: it names the read-only slave with the least id by its id and by its alias, and the instant of the reconcile. |
| `Keeping.RunningNamesServer` | internal/controller/shardedredisbackup_controller.go:123-174 | In every run a running backup names, by id and alias, a read-only slave of its shard as the cluster was in the reconcile that recorded it, and the instant of that reconcile. |
| `Phases.RunPendingJobs` | internal/controller/shardedredisbackup_controller.go:136-156 | A runner is made for exactly those backups. |
| `Phases.RunPendingStuck` | internal/controller/shardedredisbackup_controller.go:128-134 | A retry is asked for exactly when some due backup of a monitored shard has no read-only slave. |
| `Phases.ObserveEnds` | internal/controller/shardedredisbackup_controller.go:184-221 | Phase 3 leaves each entry as it is or ends a running one, keeping shard and instant. |
| `Phases.ScheduleAllMeaning` | internal/controller/shardedredisbackup_controller.go:255-282 | After the loop of phase 4 the list holds exactly what was there, less the pending backups of listed shards for another instant, plus a pending one for every listed shard not covered; it reports a change exactly when some shard was not covered. |
| `Phases.AddedIsBlank` | internal/controller/shardedredisbackup_controller.go:273-278 | What scheduling adds is pending for the next instant, of a listed shard, and nothing else is set. |
| `Phases.EndedInstantListedTwice` | internal/controller/shardedredisbackup_controller.go:238-282 | Scheduling for an instant whose backup has ended lists that instant twice, as a schedule without a next instant makes the code do. |
| `Phases.RescheduleConsistent` | internal/controller/shardedredisbackup_controller.go:251-290 | Phase 4 keeps the list consistent and equals the loop followed by the simple history filter. |
| `Phases.ReconcileConsistent` | internal/controller/shardedredisbackup_controller.go:119-248 | A reconcile keeps a consistent list consistent. |
| `Phases.ReconcileDescends` | internal/controller/shardedredisbackup_controller.go:119-248 | Every entry a reconcile leaves was there, is new and in the future, or is the next stage of one that was there. |
| `Controller.ShardedRedisBackupReconciler.Run` | internal/controller/shardedredisbackup_controller.go:115-249 | Phases 2 to 4 on the status object and the thread manager compute the reconcile function, and leave the mutex free. |
| `Controller.ShardedRedisBackupReconciler.RunPendingBackups` | internal/controller/shardedredisbackup_controller.go:119-164 | The loop over shards changes the status and collects runners as the function RunPending says. |
| `Controller.ShardedRedisBackupReconciler.ObserveRunningBackups` | internal/controller/shardedredisbackup_controller.go:184-227 | The loop over running backups leaves the list that ObserveAll gives, and reports a change exactly when there is one. |
| `Controller.ShardedRedisBackupReconciler.ObserveBackup` | internal/controller/shardedredisbackup_controller.go:189-220 | A running backup stays as it is or takes the outcome its server and runner call for; it stays Running exactly when nothing changes. |
| `Controller.ShardedRedisBackupReconciler.ReconcileBackupList` | internal/controller/shardedredisbackup_controller.go:251-290 | The loop of phase 4 and the history limit compute Reschedule. |
| `Controller.NoJobsNoChange` | internal/controller/shardedredisbackup_controller.go:162-174 | Phase 2 changes the list only if it makes a runner. |
| `Backups.SortKeyInjective` | api/v1alpha1/shardedredisbackup_types.go:218-223 | The text that Less compares identifies shard and instant, and any two different backups are ordered by it. |
| `Backups.NewerIsLater` | api/v1alpha1/shardedredisbackup_types.go:217-224 | For instants with as many digits, the order of the list is newest first, then by shard name in reverse. |
| `Backups.NewerIsLaterExactly` | api/v1alpha1/shardedredisbackup_types.go:217-224 | For any two instants: from 1970 on the later one is listed as newer if and only if the earlier does not exceed the later cut to as many digits; across 1970 always; before 1970 the order is reversed. |
| `Backups.OlderListedFirst` | api/v1alpha1/shardedredisbackup_types.go:217-224 | With different digit counts an older backup can be listed first (999 before 1000). |
| `Backups.FindLast` | api/v1alpha1/shardedredisbackup_types.go:159-168 | The result is the first position with this shard and state, or -1 exactly when there is none. |
| `Backups.FindLastIsLatest` | api/v1alpha1/shardedredisbackup_types.go:159-168 | In a list in order the first match is the one with the latest instant. |
| `Backups.HistoryLimitIsTrim` | api/v1alpha1/shardedredisbackup_types.go:182-213 | On a strictly ordered list and distinct shards, grouping, cutting, flattening and sorting again equals keeping, in place, the entries of listed shards with fewer than limit entries of the shard before them. |
| `Backups.TrimIdempotent` | api/v1alpha1/shardedredisbackup_types.go:182-213 | Applying the limit to its own result changes nothing. |
| `Backups.TrimKeepsActive` | api/v1alpha1/shardedredisbackup_types.go:182-213 | With limit at least 1 the pending or running backup of a listed shard is never dropped. |
| `Backups.RepeatedShardDuplicates` | api/v1alpha1/shardedredisbackup_types.go:182-203 | A shard listed twice has its backups duplicated, so distinct shards are needed. |
| `Backups.WithKeepsOrder` | api/v1alpha1/shardedredisbackup_types.go:150-153 | Adding a backup not yet in the list keeps the order and every other entry. |
| `Backups.WithoutKeepsOrder` | api/v1alpha1/shardedredisbackup_types.go:155-157 | Deleting by position removes exactly that entry and keeps the order. |
| `Backups.ShardedRedisBackupStatus.AddBackup` | api/v1alpha1/shardedredisbackup_types.go:150-153 | Appends and sorts the list in reverse order of Less. |
| `Backups.ShardedRedisBackupStatus.DeleteBackup` | api/v1alpha1/shardedredisbackup_types.go:155-157 | Removes the entry at a position. |
| `Backups.ShardedRedisBackupStatus.FindLastBackup` | api/v1alpha1/shardedredisbackup_types.go:159-168 | Returns the position FindLast describes. |
| `Backups.ShardedRedisBackupStatus.GetRunningBackups` | api/v1alpha1/shardedredisbackup_types.go:170-180 | Returns exactly the positions of running backups, in order. |
| `Backups.ShardedRedisBackupStatus.ApplyHistoryLimit` | api/v1alpha1/shardedredisbackup_types.go:182-213 | Replaces the list by ApplyLimit of it and reports whether that differs. |
| `Sorting.SortOutcome` | api/v1alpha1/shardedredisbackup_types.go:150-153 | Whatever sorted permutation the library sort leaves, on elements no two of which are tied it is the one the model uses. |
| `Threads.OwnershipTest` | internal/pkg/reconcilers/threads/manager.go:83-118 | A key passes the substring test of an owner exactly when the names are equal and the namespace of the tester ends the namespace of the key, or the thread id itself contains the prefix. |
| `Threads.NeighboursApart` | internal/pkg/reconcilers/threads/manager.go:141-143 | Owners in one namespace never match each other's keys if thread ids hold no slash. |
| `Threads.NamespaceSuffixCollides` | internal/pkg/reconcilers/threads/manager.go:141-143 | Across namespaces they can: b/x matches the keys of a-b/x. |
| `Threads.ReconcileMeaning` | internal/pkg/reconcilers/threads/manager.go:83-105 | Success leaves every wanted key present and started, stops exactly the matching, unwanted, deletable keys and touches no other; an early failure stops nothing. |
| `Threads.RunAllFresh` | internal/pkg/reconcilers/threads/manager.go:40-61 | A thread that is new in the map is one that was asked for, after its Start. |
| `Threads.RunAllFrame` | internal/pkg/reconcilers/threads/manager.go:40-61 | Starting threads removes no key, replaces no object, and leaves alone what runs already. |
| `Threads.RunAllFailure` | internal/pkg/reconcilers/threads/manager.go:90-93 | A start that fails ends the loop: those before it are started, the one that failed is in the map and not started, those after it are not touched. |
| `Threads.Manager.RunThread` | internal/pkg/reconcilers/threads/manager.go:40-61 | A started thread is left alone; otherwise the thread in the map, or else the given one, is started and stays in the map even if that fails; the mutex is free at the end. |
| `Threads.Manager.StopThread` | internal/pkg/reconcilers/threads/manager.go:64-73 | Tells the thread under the key to stop and removes the key; the mutex stays locked exactly when the key was missing. |
| `Threads.Manager.ReconcileThreads` | internal/pkg/reconcilers/threads/manager.go:83-105 | Computes ReconcileMap of the old map, tells exactly the removed threads to stop, and always leaves the mutex free, because it only stops keys that are there. |
| `Threads.Manager.CleanupThreads` | internal/pkg/reconcilers/threads/manager.go:110-120 | A key is left if and only if it was there and does not hold the prefix of the owner; the threads of all others are told to stop; the mutex is free. |
| `Keeping.CleanUpTakesAll` | internal/pkg/reconcilers/threads/manager.go:110-120 | In every run, after a clean-up no key that holds the prefix of the owner is in the map until a runner is made for it, and all others stay. |
| `Keeping.RestartEnds` | internal/pkg/reconcilers/threads/manager.go:32-37 | In every run, after a restart the map is empty and the runners of before never do anything again. |
| `Runners.IDExact` | internal/pkg/redis/backup/manager.go:49-51 | Two backups share a runner id exactly when the instants agree but for the sign, and shard, alias and sign read the same once joined by a dash. |
| `Runners.IDUnambiguous` | internal/pkg/redis/backup/manager.go:49-56 | With shard names free of dashes and instants on the same side of 1970 the id names shard, alias and instant. |
| `Runners.IDAmbiguous` | internal/pkg/redis/backup/manager.go:49-51 | With dashes two shards can share a runner id. |
| `Runners.StepValid` | internal/pkg/redis/backup/manager.go:77-159 | Every step of worker, timer, listener and caller keeps: the stage of the worker matches what it was told so far, Finished is set exactly once the listener has left its wait, the error is in place once the event is offered, and a success verdict means that the worker closed its channel. |
| `Failures.FailureEnds` | internal/pkg/redis/backup/manager.go:88-105 | After a failed call (first LASTSAVE, BGSAVE, tag listing, upload, check, or the cancelled poll) the worker observes nothing more, no success is ever announced, and the announced error is this one, or the timeout if the timer was faster. |
| `Failures.CancelledNeverSucceeds` | internal/pkg/redis/backup/manager.go:120-125 | A runner that is cancelled before its check was answered never succeeds; at most an upload on its way still finishes. |
| `Failures.CancelledExactly` | internal/pkg/redis/backup/manager.go:77-165 | A runner is cancelled if and only if its timer fired or its caller stopped it, and only then its save stage ends for that reason. |
| `Failures.TimeoutLeaksWorker` | internal/pkg/redis/backup/manager.go:84-142 | A worker that was cut off by an announced timeout never ends: it is at work, or waits for ever to hand over an error that nobody takes. |
| `Failures.CanSucceed` | internal/pkg/redis/backup/manager.go:88-154 | From every stage of the work of a runner that is not cancelled a success can be announced and its event taken. |
| `Failures.CanTimeOut` | internal/pkg/redis/backup/manager.go:121-132 | While the listener waits a timeout can be announced and its event taken. |
| `Failures.CanFail` | internal/pkg/redis/backup/manager.go:88-142 | Every call can fail with any error, which is then announced and its event taken; so can a cancelled poll. |
| `Runners.FinishedOnce` | internal/pkg/redis/backup/manager.go:116-156 | In every interleaving Finished goes from false to true at most once and stays, the event is handed over at most once, and only after Finished and the error are in place. |
| `Runners.OutcomeStable` | internal/pkg/redis/backup/manager.go:116-156 | From the moment the event is offered, finished, error, file and finish time never change; after a success the size does not either. |
| `Runners.AnnouncedSuccess` | internal/pkg/redis/backup/manager.go:88-108 | Announced without error: save, upload and check succeeded in this order, and the file is the destination. |
| `Runners.ReadsTrueExactly` | internal/pkg/redis/backup/manager.go:127-138 | A status that reads as complete is true exactly when not read between the writes of Finished and Error. |
| `Runners.TornReadPossible` | internal/pkg/redis/backup/manager.go:134-138 | There is a run in which a worker that failed at once reads as complete. |
| `Runners.UnfiledReadPossible` | internal/pkg/redis/backup/manager.go:144-149 | There is a run in which a backup that succeeded reads as complete without its file. |
| `Runners.FixedExactly` | internal/pkg/redis/backup/manager.go:116-156 | A finished status cannot change any more, but for the size, if and only if its event is offered. |
| `Sizes.SizeChangesExactly` | internal/pkg/redis/backup/check.go:23-46 | After the outcome was announced some continuation changes the size if and only if the worker holds another size that it was told and has not written yet, which is only so after a timeout. |
| `Sizes.SizeChangesAfterTimeout` | internal/pkg/redis/backup/check.go:44-46 | There is a run to such a change, for every size: the listing is answered, the timeout is announced, the size is written. |
| `Sizes.SizeWrittenExactly` | internal/pkg/redis/backup/manager.go:88-110 | The size, once written, is what the check was told, or zero if the worker was faster than Start, which resets the status. |
| `Sizes.SizeLostAtStart` | internal/pkg/redis/backup/manager.go:88-110 | There is such a run, announced as a success of size zero. |
| `Saving.BackgroundSave` | internal/pkg/redis/backup/bgsave.go:12-55 | Succeeds exactly when both commands are accepted and some LASTSAVE reading before the end of the context exceeds the one taken before BGSAVE; failed readings are skipped; the worker of the protocol comes to the same state. |
| `Clusters.ShardServers` | api/v1alpha1/sentinel_types.go:198-217 | Fails exactly when some address does not parse; else the server list is the same for every enumeration of the status map. |
| `Clusters.EnumerationIrrelevant` | api/v1alpha1/sentinel_types.go:198-217 | Any two enumerations of the map give the same list after sorting by id. |
| `Clusters.ChosenSlave` | internal/pkg/redis/sharded/redis_shard.go:230-246 | The first read-only slave is the one with the least id among all, whatever the order of the servers; there is none exactly when no server is a read-only slave. |
| `Clusters.WritableNeverChosen` | internal/pkg/redis/sharded/redis_shard.go:234-235 | A master, or a slave whose setting slave-read-only is not yes, is never chosen. |
| `Clusters.GetSlavesRO` | internal/pkg/redis/sharded/redis_shard.go:230-246 | Collects the read-only slaves sorted by id. |
| `Clusters.LookupServerByID` | internal/pkg/redis/sharded/redis_sharded_cluster.go:100-110 | Returns the server LookupServer describes. |
| `Clusters.LookupServer` | internal/pkg/redis/sharded/redis_sharded_cluster.go:100-110 | A result has the id and belongs to a shard; there is none exactly when no server of any shard has the id. |
| `Clusters.ShardNamesMeaning` | internal/pkg/redis/sharded/redis_sharded_cluster.go:79-88 | The names are exactly the names of the shards, each once, in ascending order. |
| `Retentions.LabelsAreHeads` | internal/pkg/redis/backup/s3upload.go:108-120 | The day and hour labels are what the full timestamp starts with. |
| `Retentions.TimestampsSort` | internal/pkg/redis/backup/s3upload.go:43-47 | A timestamp tells every field and the zone, and timestamps of one zone sort by time. |
| `Retentions.FilesSort` | internal/pkg/redis/backup/s3upload.go:43-51 | The uploads of one shard in one zone sort by time. |
| `Retentions.ListingFinds` | internal/pkg/redis/backup/s3upload.go:34-55 | With a clean path a listing finds an object exactly when the shard is the same and the label heads its timestamp. |
| `Retentions.UncleanFindsNothing` | internal/pkg/redis/backup/s3upload.go:106-120 | With a path that the key construction cleans, such as one that ends in a slash, no listing finds any object. |
| `Retentions.ResolveTags` | internal/pkg/redis/backup/s3upload.go:94-137 | With a clean path: 90 days if and only if the bucket holds nothing of the shard and day, one day if and only if it holds something of the shard and hour; with any other path always 90 days. |
| `Retentions.ListedMeans` | internal/pkg/redis/backup/s3upload.go:104-120 | The two listings find an object if and only if the path is clean and the object is of the shard and day, or hour. |
| `Retentions.RetentionExactly` | internal/pkg/redis/backup/s3upload.go:94-146 | In every run of serial uploads to a clean path whose tags are chosen within four days of their timestamps, with objects expiring, the first upload of a day label is tagged 90d, the first of any other hour label 7d, all others 24h. |
| `Retentions.PromptInTime` | internal/pkg/redis/backup/s3upload.go:94-146 | Such uploads are in time, whatever the zones and the calendar and however long they take. |
| `Retentions.OnePerLabel` | internal/pkg/redis/backup/s3upload.go:94-146 | In such runs each day label of a shard has exactly one upload tagged 90d, its first, and each hour label exactly one not tagged 24h, its first. |
| `Retentions.DaysAreShort` | internal/pkg/redis/backup/s3upload.go:111-112 | Of uploads that share a day label the later is tagged less than a week after the earlier has arrived. |
| `Retentions.UncleanKeepsAll` | internal/pkg/redis/backup/s3upload.go:94-146 | With such a path every upload is tagged 90d. |
| `Retentions.RotatesExactly` | internal/pkg/redis/backup/s3upload.go:94-171 | The rotation comes about in every run of some uploads if and only if the path is clean and whenever a tag is chosen that is not the first of its day or hour, an earlier one of that day or hour has arrived and, kept as intended, is not expired; or the path is not clean and no shard uploads twice on a day. |
| `Retentions.OverlapKeepsBoth` | internal/pkg/redis/backup/s3upload.go:57-92 | Of two uploads of a day both can be tagged 90d, if the second is tagged before the first arrives. |
| `Retentions.CheckListsUpload` | internal/pkg/redis/backup/check.go:22-36 | The listing of the check holds the upload itself if and only if the path is clean. |
| `RedisNodes.PodIndexOfName` | api/v1alpha1/redisshard_types.go:93-95 | The number after the last dash of a printed pod name parses back to the pod index. |
| `RedisNodes.SetRedisRoles` | internal/controller/redisshard_controller.go:98-124 | A topology results exactly when every pod is found and has an address; it maps each pod name to the URL of its address, and the master is the pod at the master index. |
| `Text.AtoiOfSigned` | api/v1alpha1/redisshard_types.go:93-95 | A sign in front of the digits is taken. |
| `RedisNodes.HostPortReads` | internal/controller/redisshard_controller.go:119-123 | The address of an IP, of version 4 or 6, reads as that IP and the redis port, and in no other way. |
| `RedisNodes.AddressesDiffer` | internal/controller/redisshard_controller.go:119-123 | Pods with different IPs have different addresses. |
| `RedisNodes.UrlsMeaning` | internal/controller/redisshard_controller.go:102-124 | For pairwise different names the map holds exactly these, each with the URL of its pod. |
| `RedisNodes.StatusNodes` | internal/controller/redisshard_controller.go:141-150 | Each server of known role is in the map of its role with its address, no other name is, and no name is in both. |
| `RedisNodes.StatusDescribes` | internal/controller/redisshard_controller.go:141-150 | The status holds exactly the pods whose role is known. |
| `RedisNodes.GetNodeByPodIndex` | api/v1alpha1/redisshard_types.go:89-102 | In whatever order the map is walked the answer is the pod with that number if its role is known, else empty. |
| `RedisNodes.GetIndexByHostPort` | api/v1alpha1/redisshard_types.go:116-128 | For distinct addresses the answer is the index of the pod with that address if its role is known, else -1. |
| `RedisNodes.IndexOfAddressOfIndex` | api/v1alpha1/redisshard_types.go:89-128 | Looking up the address of a pod index and then the index of that address comes back to the index if and only if the role of the pod is known. |
| `TektonTasks.Merge` | api/v1alpha1/system_types.go:1143-1169 | Fills command, arguments and variables from the default; a missing configuration stays missing. |
| `TektonTasks.AddMissingMeaning` | api/v1alpha1/system_types.go:1151-1168 | The variables that were there stay in front unchanged, every default name is there, what was appended is a default whose name was not there yet, and nothing changes if no name is missing. |
| `TektonTasks.AddDefaultsMeaning` | api/v1alpha1/system_types.go:365-383 | The pass over the table keeps the tasks of the user in place, each merged with the default of its name, and appends each missing default in table order. |
| `TektonTasks.MissingFromTable` | api/v1alpha1/system_types.go:379-382 | What is appended comes from the table, goes by names that no task of the user has, and is appended once. |
| `TektonTasks.PassKeepsOrder` | api/v1alpha1/system_types.go:365-387 | After the whole defaulting the tasks of the user come first in their order, then the missing defaults in table order. |
| `TektonTasks.PassFills` | api/v1alpha1/system_types.go:1129-1179 | Where each field of a task of the user comes from: the task itself, else the default of its name (description, enabled, command, arguments), else the value for all. |
| `TektonTasks.PassKeepsEnv` | api/v1alpha1/system_types.go:1143-1169 | A configured task keeps its variables as an unchanged prefix and has all variables of its default. |
| `TektonTasks.PassTwiceExactly` | api/v1alpha1/system_types.go:365-387 | A second pass changes nothing if and only if no task of the user goes by the name of a default with variables while having no configuration. |
| `TektonTasks.SystemTasksTwice` | api/v1alpha1/system_types.go:213-258 | For the table of the operator: if and only if no task named system-searchd-reindex lacks a configuration; a task without configuration ends with the placeholder command and no variables. |
| `TektonTasks.SystemSpec.DefaultTasks` | api/v1alpha1/system_types.go:365-387 | Both loops leave the task list that Pass gives. |
| `TektonTasks.SystemSpec.AddDefaultTask` | api/v1alpha1/system_types.go:369-377 | The inner loop merges the default into every task of its name and reports whether there was one. |

## Left out

- Phase 1 of the reconcile: fetching the resource, the Sentinel status and the secrets, finalizers, and the lifecycle of the base reconciler.
- SSH, the upload script, the S3 and AWS clients, metrics and logging: upload and check are stages that succeed or fail.
- Which object of a listing the check takes as the latest: `LastModified` times are not part of this model.
- Time zones and monotonic readings of `time.Time`: `==` on times compares instants here. The whole seconds to which the API server cuts stored times are not modelled; cron instants are whole seconds.
- The difference between nil and empty lists in `reflect.DeepEqual`, and negative history limits.
- The Go memory model beyond interleavings of whole field writes and of reads of the whole status: `Status()` copies the fields without synchronisation, so that one read may mix moments.
- Threads.Manager.RunThread: threads are values in the map that carry a handle; aliasing of thread objects, their channel and the unlocked reads of the map by concurrent callers are not captured.
- Threads.Manager.StopThread: it notes which threads are told to stop; in runs, the step Stop of a runner may happen at any time, whether told or not.
- The text of error messages: the timeout message lacks the duration and wrapped errors are their cause.
- Saving.BackgroundSave: the endless loop takes a finite sequence of ticks; having used them up is the outcome StillPolling.
- TektonTasks.SystemSpec.DefaultTasks: configurations are values, so that appended defaults share their configuration with the package table is not captured; nor are nil task names, which the code dereferences.
- Resources, affinity, tolerations and termination periods of Tekton tasks, and the defaulting of other components: field by field.
- RedisNodes.SetRedisRoles: parsing the URLs again and the initialisation of the shard through Redis are not part of this model; the servers are taken to have the addresses as ids.
- Sentinel discovery, twemproxy configuration, canary patches, generators of workloads and dashboards.
