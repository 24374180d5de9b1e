# Verified model of the Agent/server synchronisation core

This project models, in Dafny, the parts of the file-sharing system whose
correctness rests on durable steps taken in the right order: the Agent's
crash-safe object store and purge saga, the outbox that reports local changes to
the control plane, the control plane's catalog, the leased transfer scheduler with
the Agent that works for it, and the smaller state machines beside them (chunk
hasher, resumable download, refresh-session families, folder tree, delta sync,
device commands).

How the model is built:

- One SQL transaction or statement, or one change of a file on disk, is one atomic
  step. Time is a monotone integer in nanoseconds (seconds in the outbox column).
- SHA-256, name normalisation, trimming and byte length are functions without a
  definition: every theorem holds whatever they are. Ids are types with equality
  only, except task and command ids, whose order breaks ties.
- Code that changes rows or fields in place is a class with methods
  (`SQLiteObjectStore`, `Queue`, `Repository` of the catalog, of the scheduler and of
  the command queue, `Service`, `Agent`, `EventLog`, `Hasher`, `StagedImport`, `PartFile`). Each method
  is proved equal to a specification function or relation, and the theorems over
  runs are proved about those. When an operation is accepted and what it writes is also
  stated on the fields of the rows, in its contract or in a lemma beside it, so that the
  specification is pinned down by more than itself.
- A multi-step operation of the object store is a *plan*, a sequence of durable
  statements. The class keeps a ghost journal that ties each method to its plan, and
  safety is proved of every prefix of a plan, so it covers a crash between any two
  statements, also inside recovery.

## Reading order

| file | content |
|---|---|
| `Base.dfy`, `Wire.dfy` | shared types, abstract functions, reports |
| `LocalStore.dfy`, `StoreSafety.dfy`, `ObjectStore.dfy` | statements and plans; their safety; the class |
| `Outbox.dfy` | the queue and its drain loop |
| `ServerCatalog.dfy`, `CatalogEffects.dfy`, `CatalogInvariants.dfy`, `CatalogRepository.dfy` | the catalog's calls; what each accepts and writes, on the rows; what they keep; the transactions |
| `Delivery.dfy` | exactly-once effect |
| `AgentSystem.dfy`, `CatalogView.dfy`, `SystemInvariant.dfy`, `SystemTheorems.dfy`, `SystemProgress.dfy` | Agent and server as one machine; the abstract catalog; the invariant; the safety theorems; what can always still be reached |
| `TransferTask.dfy`, `Scheduler.dfy`, `SchedulerSafety.dfy` | one task; the tables; runs of the tables |
| `TransferAgent.dfy`, `Download.dfy` | the Agent's side of a transfer |
| `ChunkHasher.dfy`, `Staging.dfy` | the streaming hasher; staging, committing and discarding an import |
| `DeltaSync.dfy`, `Sessions.dfy`, `SessionFamilies.dfy`, `DeviceCommands.dfy` | the smaller machines |

## What the proofs show about the code that its documentation does not say

- `AcquireLease` ignores the backoff that a failure records (`AcquireSkipsBackoff`). No HTTP
  route reaches `AcquireLease`, `AddSource` or `CreateTask`, so this finding and the one on a
  target as its own source concern callers inside the server.
- A task can end by a state report of a terminal state: it then keeps its lease, has no copy,
  and a failure report can revive it. Exactly the runs without such a report keep ended tasks
  free of leases (`CleanExactly`), and exactly those without a report of completed leave
  completing to `CompleteReplica` (`CompletionExactly`). The retry bound and the
  one-live-task rule need no such condition (`RetryBound`, `OneLiveTask`).
- A claim fails as long as the device's first eligible task has lost its last active
  file entry, whatever waits behind it (`Scheduler.Repository.ClaimNext`, case `Internal`).
- A claim can hand a task's own target out as its source. `ClaimSource` gives the exact
  condition: the target has an enabled source row and a servable copy, and the row's rank
  is below one, or is one while the target was seen after every usable device; at rank one
  and seen equally late the query leaves the choice open (`TieIsOpen`). Such a row exists
  exactly when some `AddSource` named the target of that task (`SelfRowExactly`).
- An attempt does not always end with its lease released, nor with Agent and server agreeing.
  `Freed` and `Agreed` are the exact conditions on the messages, proved of the whole attempt
  (`TransferAgent.Agent.ExecuteOneTransfer`): a state report that took effect unheard leaves
  the lease to expire, and a completion that took effect unheard leaves the task completed
  while the Agent records that it gave up.
- The delay a failed device command records is never looked at (`BackoffIsIgnored`), and
  finishing a command is not fenced to the latest claim: a finish is accepted from any
  claimant exactly while the command is leased (`AnyClaimantFinishes`). It is the latest
  claimant's exactly when the attempt number that claimant was handed is still the
  command's, which the server never compares (`FinishIsLatest`). A finish of an earlier
  claim can take effect after that claim's lease ran out, or within it once another finish
  was accepted since that claim, and in no other way (`StaleFinish`, `StaleFinishHappens`).
- A purge abandoned before its report is released blocks the outbox once that report is the
  oldest unfinished one: nothing is sent until the process restarts (`StuckUntilRestart`,
  `AbandonSticks`); nothing else blocks it (`OnlyAbandonSticks`). From every state
  whose queue holds no such report the outbox can be drained without a restart, and from any
  state with one (`AgreementReachable`, `OrphanStays`).
- The chunk manifest of an empty file has no chunk while the server records one
  (`CountMatchesServer`).
- A quarantined file is judged by its bytes alone on the next start
  (`QuarantineIsProvisional`).

## Model

| member | source | states |
|---|---|---|
| SystemTheorems.CrashSafety | client/ubuntu/internal/storage/sqlite_object_store.go:55-152 | in every state of every run, with a crash and recovery after any durable statement, each active or trashed file's bytes are stored and hash to its object id, the object is READY whenever nothing is under way, and no operation under way can meet an error |
| SystemTheorems.PurgeBarrier | client/ubuntu/internal/storage/sqlite_object_store.go:359-391 | a purge report queued in this process lifetime is sent only when the row is gone; from the moment any purge report is queued the file is never active or trashed again |
| SystemTheorems.DrainedMeansAgreement | client/ubuntu/internal/agentsync/client.go:677-734 | once the outbox is drained, whatever was lost, repeated or restarted, each live file has its name and status on the server, each purging or removed one is purged, and the server lists nothing else |
| SystemTheorems.ServerAcceptsEverything | server/internal/catalog/unified.go:166-305 | with one device and server-valid names, every copy of every queued report that reaches the server is accepted |
| SystemTheorems.NothingFails | client/ubuntu/internal/agentsync/client.go:691-734 | no queued report ever ends up failed in such a run |
| SystemTheorems.ServerFollowsTheQueue | client/ubuntu/internal/localapi/localapi.go:93-124 | at every moment the server shows exactly what the applied prefix of the queue makes it, at most one report past the oldest unfinished one |
| SystemTheorems.RunKeepsReports | client/ubuntu/internal/storage/sqlite_store.go:776-826 | a queued report is never altered or dropped |
| SystemTheorems.RunInv | client/ubuntu/internal/agentsync/client.go:272-275 | every event, the release of blocked reports at a restart included, keeps the system invariant |
| SystemTheorems.StuckUntilRestart | client/ubuntu/internal/localapi/localapi.go:93-124 | once the oldest unfinished report is blocked behind a purge that is no longer under way, no report is sent before the process restarts, whatever else happens |
| SystemTheorems.AbandonSticks | client/ubuntu/internal/storage/sqlite_object_store.go:359-391 | a purge whose statements are done can be abandoned, with that effect if and only if its report is the oldest unfinished one and nothing is being delivered |
| SystemTheorems.OnlyAbandonSticks | client/ubuntu/internal/agentsync/client.go:272-275 | as long as no purge was abandoned since the process last crashed, the queue is never blocked in that way |
| SystemProgress.AgreementReachable | client/ubuntu/internal/agentsync/client.go:677-734 | from every state of every run a continuation that asks for nothing new completes every queued report and makes Agent and server agree; it needs a restart only if some blocked report has nobody to release it |
| SystemProgress.OrphanStays | client/ubuntu/internal/agentsync/client.go:272-275 | without a restart a blocked report that nobody will release stays unfinished, so the outbox is never drained |
| SystemProgress.UnattendedHasOrphan | client/ubuntu/internal/localapi/localapi.go:93-124 | in every reachable state the queue is without such a report if and only if each report under way belongs to the purge or the delivery under way, or the process is starting |
| StoreSafety.CutRecovers | client/ubuntu/internal/storage/sqlite_object_store.go:183-228 | cut anywhere, a safe plan loses no live row, and the recovery that follows leaves every live row as it was, its object READY and its bytes stored under their hash |
| StoreSafety.ImportSafe | client/ubuntu/internal/storage/sqlite_object_store.go:183-228 | an import meets no error, is safe at every statement and ends with the content READY, stored and all rows unchanged |
| StoreSafety.PurgeSafe | client/ubuntu/internal/storage/sqlite_object_store.go:359-391 | a purge is safe at every statement, removes exactly its row, and removes record and bytes exactly when that was the last reference |
| StoreSafety.RecoveryEffect | client/ubuntu/internal/storage/sqlite_object_store.go:55-152 | from any state and in any order of scanning, one pass yields exactly: READY for a recorded file with matching hash, CORRUPT otherwise, MISSING for a READY record without file, QUARANTINED for a file without record; stale records without file go, with their rows |
| StoreSafety.RecoverySafe | client/ubuntu/internal/storage/sqlite_object_store.go:55-176 | from any state a crash leaves, recovery loses no live row at any of its own statements and ends with every live object READY |
| StoreSafety.QuarantineIsProvisional | client/ubuntu/internal/storage/sqlite_object_store.go:84-120 | an unrecorded file is quarantined by one pass and promoted or marked corrupt by the next, by its hash |
| ObjectStore.SQLiteObjectStore.StartupRecovery | client/ubuntu/internal/storage/sqlite_object_store.go:55-152 | the walk, the reverse scan and the clean-up run exactly the statements of the recovery plan; on the rows: a file with a record is READY or CORRUPT by its hash, one without QUARANTINED, a READY record without file MISSING, any other without file goes once it is an hour old and takes its rows along |
| ObjectStore.SQLiteObjectStore.CleanupStale | client/ubuntu/internal/storage/sqlite_object_store.go:155-176 | a record goes exactly if it is not READY, has no file and is more than an hour old, together with the rows that reference it |
| ObjectStore.SQLiteObjectStore.Import | client/ubuntu/internal/storage/sqlite_object_store.go:183-228 | runs the import plan statement by statement; from any state it ends with bytes of the right hash stored and the record READY at their size, and touches no other content; a healthy store ends healthy |
| ObjectStore.SQLiteObjectStore.VerifyPersisted | client/ubuntu/internal/storage/sqlite_object_store.go:275-303 | a record turns MISSING exactly when its file is, CORRUPT exactly when the file does not hash to its id |
| ObjectStore.SQLiteObjectStore.Verify | client/ubuntu/internal/storage/sqlite_object_store.go:305-318 | for any hash, answers whether the file is there and intact, and marks an existing record CORRUPT exactly when not |
| ObjectStore.SQLiteObjectStore.DeleteObject | client/ubuntu/internal/storage/sqlite_object_store.go:334-345 | removes record, bytes and all referencing rows, or reports an unknown object and changes nothing |
| ObjectStore.SQLiteObjectStore.BeginPurge | client/ubuntu/internal/storage/sqlite_store.go:842-880 | an owned row that is not active is marked and its report queued blocked in one transaction, and the answer says whether no other row shares the object; or the error and no change |
| ObjectStore.SQLiteObjectStore.PurgeLANFile | client/ubuntu/internal/storage/sqlite_object_store.go:359-391 | accepted exactly for an owned row that is not active: removes it, and record and bytes exactly when no other row shares them, statement by statement of the purge plan; its report is pending at the end |
| ObjectStore.SQLiteObjectStore.PurgeExpired | client/ubuntu/internal/storage/sqlite_object_store.go:403-421 | after the loop exactly the rows trashed or purging whose deadline has come are gone, every other is untouched, and a file goes exactly if it was referenced and all its references went, for any sharing and order |
| ObjectStore.RetentionIsKept | client/ubuntu/internal/storage/sqlite_store.go:675-703 | a row trashed at one time and not touched since is swept exactly from the end of its retention on |
| ObjectStore.RestoreUndoesTrash | client/ubuntu/internal/storage/sqlite_store.go:738-774 | restoring gives back the very row that was trashed, exactly if no other active row of the owner took its name |
| ObjectStore.SQLiteObjectStore.CreateLANFile | client/ubuntu/internal/storage/sqlite_store.go:482-525 | a new id gets a row for a READY object, and its registration report, in one transaction, exactly if no active row of the owner has the name; each refusal has its error and no effect |
| ObjectStore.SQLiteObjectStore.RenameLANFile | client/ubuntu/internal/storage/sqlite_store.go:632-668 | renames exactly an owned active row to a name no other active row of the owner has, and queues that report in the same transaction |
| ObjectStore.SQLiteObjectStore.TrashLANFile | client/ubuntu/internal/storage/sqlite_store.go:675-703 | trashes exactly an owned active row until the retention ends and queues the report with that deadline |
| ObjectStore.SQLiteObjectStore.RestoreLANFile | client/ubuntu/internal/storage/sqlite_store.go:738-774 | restores exactly an owned trashed row whose name no active row has and queues the report; never a purging one |
| ObjectStore.SQLiteObjectStore.FinalizePurge | client/ubuntu/internal/storage/sqlite_store.go:898-911 | removes only a purging row of the owner |
| ObjectStore.SQLiteObjectStore.ListExpired | client/ubuntu/internal/storage/sqlite_store.go:914-929 | lists exactly the trashed or purging rows whose deadline has come, each once, earliest deadline first |
| Outbox.Queue.Drain | client/ubuntu/internal/agentsync/client.go:677-689 | at a fixed clock the loop ends, tries only the oldest unfinished row, no row twice, leaves untried rows alone and each tried row as its delivery left it, and leaves nothing due |
| Outbox.DrainedRows | client/ubuntu/internal/localapi/localapi.go:93-124 | every attempt of a drain was of a pending row whose retry time had come, with only completed or failed rows before it, and afterwards no such row is left |
| Outbox.Queue.Deliver | client/ubuntu/internal/agentsync/client.go:691-734 | after at most one token refresh: 2xx completes the row; no reply, 408, 425, 429 or 5xx makes it pending with one more retry and a backoff doubling up to 64 intervals; anything else fails it; other rows are unchanged; and when the drain must stop |
| AgentSystem.SettlingIsDelivery | server/internal/controlapi/handler.go:571-588 | every answer of the catalog, as the status code the handlers send, is settled by the delivery loop as the system runs settle it |
| Outbox.Queue.GetPending | client/ubuntu/internal/localapi/localapi.go:93-124 | returns a row exactly if it is pending, its retry time has come and every older one is completed or failed |
| Outbox.Queue.MarkRetryable | client/ubuntu/internal/localapi/localapi.go:161-180 | pending again, one more retry, due after the delay and at least a second, in whole seconds |
| Outbox.RetryIsLater | client/ubuntu/internal/localapi/localapi.go:161-180 | whatever the delay and the truncation, a retried operation is due strictly later than now |
| Outbox.Queue.Enqueue | client/ubuntu/internal/storage/sqlite_store.go:806-828 | a new operation goes to the end of the queue, pending or blocked |
| Outbox.Queue.Activate | client/ubuntu/internal/storage/sqlite_store.go:882-895 | releases a blocked report and nothing else |
| Outbox.Queue.Recover | client/ubuntu/internal/agentsync/client.go:272-275 | after a restart every attempted or blocked report is pending, and the oldest unfinished one is the same |
| Delivery.RejectionIsStable | server/internal/catalog/unified.go:166-305 | a rejection repeats itself whenever the report arrives again |
| Delivery.LateDuplicateIsNoop | server/internal/catalog/unified.go:184-202 | after any run of other calls, by any device, a late duplicate is still answered with the stored result and changes nothing |
| Delivery.ExactlyOnceEffect | client/ubuntu/internal/agentsync/client.go:691-734 | delivering each report one or more times in queue order leaves the catalog that delivering each once leaves |
| CatalogInvariants.LogDeterminesState | server/internal/catalog/unified.go:385-388 | after any run: events numbered 1..n, per-file versions strictly increasing, replaying the log gives every entry's status, an entry is trashed exactly when its trash record is in state trashed |
| CatalogInvariants.TreeStaysConnected | server/internal/catalog/browser.go:97-185 | after any run every active folder, and the folder of every entry not purged, reaches the root through active folders |
| CatalogInvariants.RunSound | server/internal/catalog/unified.go:166-305 | every run of calls keeps log, trash, tree and name uniqueness |
| CatalogRepository.Repository.RegisterVerifiedFile | server/internal/catalog/unified.go:70-157 | the statements of the transaction give exactly the registration of the catalog model, all rows or none, and keep the catalog sound |
| CatalogRepository.Repository.ApplyLifecycleReport | server/internal/catalog/unified.go:166-305 | likewise for a lifecycle report with its idempotency key, commands and event |
| CatalogRepository.Repository.ApplyAction | server/internal/catalog/unified.go:211-289 | the per-action statements change entry, trash record and replica together, or refuse with the stated error |
| CatalogRepository.Repository.CreateManagedFolder | server/internal/catalog/browser.go:97-122 | a folder under an active parent with a free name; a root created on the way stays even when the call fails |
| CatalogRepository.Repository.RenameManagedFolder | server/internal/catalog/browser.go:124-139 | only an active folder other than a root, only to a name free among its active siblings |
| CatalogRepository.Repository.DeleteManagedFolder | server/internal/catalog/browser.go:141-157 | only a folder with no active sub-folder and no entry that is not purged; keeps the tree sound |
| CatalogRepository.Repository.MoveFiles | server/internal/catalog/browser.go:159-185 | file after file in order; the first that fails takes all others back |
| CatalogEffects.RegistrationAccepted | server/internal/catalog/unified.go:70-157 | a new file is accepted exactly if its fields are valid, no active file in the root has its name and no other undeleted copy of the device its id; a known one exactly with the same content |
| CatalogEffects.RegistrationWrites | server/internal/catalog/unified.go:70-157 | an accepted new file becomes an active entry of version 1 in the root, created if need be, with one event; nothing else changes |
| CatalogEffects.RegistrationCopies | server/internal/catalog/unified.go:100-150 | content and copy of an accepted new file: ready, with the cleaned endpoint, one version later if it was there; no other content or copy changes |
| CatalogEffects.OtherReports | server/internal/catalog/unified.go:166-202 | a report that is malformed, repeated or about an unknown file changes nothing and is answered with its error or, for the same request, the stored answer |
| CatalogEffects.ReportAccepted | server/internal/catalog/unified.go:211-289 | for each action the exact statuses and names under which a new report is accepted |
| CatalogEffects.ReportedEntry | server/internal/catalog/unified.go:211-289 | for each action what the entry becomes, and that no other entry changes |
| CatalogEffects.ReportedTrash | server/internal/catalog/unified.go:227-289 | trash record with the deadline given or a week later, its removal on restore and its end on purge; otherwise no trash record changes |
| CatalogEffects.ReportedCopies | server/internal/catalog/unified.go:262-289 | a purge that takes effect deletes the reporter's copy; no other report and no other copy is touched |
| CatalogEffects.ReportedLog | server/internal/catalog/unified.go:290-305 | a changed entry gives exactly one event with the next number, an unchanged one none; the answer is stored under the operation |
| CatalogEffects.ReportedCommands | server/internal/catalog/commands.go:22-35 | a changed file gives a command to exactly the other devices with a ready copy and a file id, never to the reporter; existing commands stay |
| CatalogEffects.FolderCreated | server/internal/catalog/browser.go:97-122 | a folder is created exactly under an active parent with a valid name no active sibling has; a refusal changes nothing |
| CatalogEffects.RootCreated | server/internal/catalog/browser.go:97-122 | without a root it is created first and stays even when the folder is refused |
| CatalogEffects.FolderRenamed | server/internal/catalog/browser.go:124-139 | exactly an active folder with a parent is renamed, to a valid name no active sibling has |
| CatalogEffects.FolderDeleted | server/internal/catalog/browser.go:141-157 | exactly an active folder with a parent, no active sub-folder and no entry that is not purged is deleted |
| CatalogEffects.MoveExactly | server/internal/catalog/browser.go:159-185 | an accepted move puts every file of the batch into the folder and leaves all others as they were; it is accepted exactly for 1 to 500 active files and an active folder in which, or earlier in the batch, no other active file has the name of any |
| TransferTask.Fencing | server/internal/transfer/transfer.go:284-424 | each accepted call raises the version by exactly one, and a state, complete or fail report takes effect only for the latest claim, with no failure, completion or cancel since |
| TransferTask.LeasesExclude | server/internal/transfer/execution.go:135-144 | in every run, between two claims of a task of either kind lies a failure, a completion, a cancellation or the end of the first lease |
| TransferTask.RetriesWait | server/internal/transfer/execution.go:242-259 | in every run, what follows a failure that is not the last is a cancellation, an AcquireLease, or a ClaimNext at least min(2^attempt, 300) seconds later |
| TransferTask.Lifecycle | server/internal/transfer/execution.go:191-277 | in every run a working task is owned by its target; as long as no terminal state was reported, a finished task never changes and only a completion report completes it, from verifying, under a live lease, with matching content |
| TransferTask.StepClean | server/internal/transfer/transfer.go:364-424 | one accepted call on a task that carries no lease if ended: the same holds afterwards if and only if it is not a report of a terminal state; and a call completes a task if and only if it is a completion or a report of completed |
| TransferTask.CleanExactly | server/internal/transfer/transfer.go:45-98 | ended tasks carry no lease throughout a run if and only if no report of a terminal state was accepted |
| TransferTask.CompletionExactly | server/internal/transfer/execution.go:191-239 | every completion in a run is a completion report, from verifying, under a live lease, if and only if no report of completed was accepted |
| TransferTask.ReportedEndRevives | server/internal/transfer/transfer.go:364-424 | a terminal state reported by the lease holder is accepted, keeps the lease, and a failure report then revives the task exactly while attempts are left |
| TransferTask.RetryBound | server/internal/transfer/execution.go:242-259 | in every run, whatever states are reported, at most ten failure reports are ever accepted for a task |
| TransferTask.Predecessors | server/internal/transfer/transfer.go:45-98 | from which states each state can be reported |
| TransferTask.BackoffDoubles | server/internal/transfer/execution.go:242-259 | the delay after a failure doubles with each attempt and is five minutes from the ninth on |
| TransferTask.AcquireSkipsBackoff | server/internal/transfer/transfer.go:284-359 | AcquireLease succeeds at once after a failure exactly when the task is not finished |
| Scheduler.RankSources | server/internal/transfer/execution.go:100-113 | numbers exactly the other active devices with a servable copy from 1, distinct; a lower number was seen no earlier, never-seen devices last, and among those seen alike has a copy updated no earlier |
| Scheduler.Repository.CreateReplicaTask | server/internal/transfer/execution.go:52-122 | each of the five answers exactly when it is due; a new task, queued and unleased with the priority and creation given, only where no live one stands |
| Scheduler.CreationTerms | server/internal/transfer/execution.go:76-113 | a created task records exactly its ranked devices as enabled sources, one of rank 1 among them, leaves other source rows alone, and no live task for object and target stood before |
| Scheduler.Repository.ClaimNext | server/internal/transfer/execution.go:125-189 | takes the first eligible task, refreshes its source ranks, leases it and picks the best source, or answers with the exact error and no change |
| Scheduler.EligibleFor | server/internal/transfer/execution.go:135-144 | a task of the device in an open state, not paused, with no lease or an ended one, is eligible as soon as one other active device can serve it |
| Scheduler.EligibleNeeds | server/internal/transfer/execution.go:135-144 | an eligible task has all of that |
| Scheduler.Repository.AcquireLease | server/internal/transfer/transfer.go:284-359 | accepted exactly for the target, a lease of a second to a day, an unfinished task and no running lease: one more attempt and version; refused with the error of the task specification |
| Scheduler.Repository.CreateTask | server/internal/transfer/transfer.go:158-217 | a task of a known object and device, queued and unleased with the priority and creation given, refused exactly when a live one stands |
| Scheduler.Repository.AddSource | server/internal/transfer/transfer.go:429-475 | sets the rank of a source row exactly when the task is known and the device active, be it the target or not |
| Scheduler.Repository.UpdateState | server/internal/transfer/transfer.go:364-424 | accepted exactly for the lease holder at the current version and a valid transition: one more version; refused with the error of the task specification |
| Scheduler.Repository.FailAttempt | server/internal/transfer/execution.go:242-259 | accepted exactly for the lease holder at the current version, unless reviving the task would break the live-task index: the task fails for good after ten attempts and otherwise waits |
| Scheduler.Repository.CompleteReplica | server/internal/transfer/execution.go:191-239 | copy and completion in one step, exactly when the report is well formed, holder, state, lease, version and content match, and no other undeleted copy of the device has the file id |
| Scheduler.Repository.CancelTask | server/internal/transfer/execution.go:262-277 | ends a live task and leaves a finished one alone |
| Scheduler.ClaimSource | server/internal/transfer/execution.go:145-184 | however stale the source rows were, the source is usable and was seen most recently, unless the target's own row wins; the target wins exactly under the stated condition, and only a tie is open |
| Scheduler.TieIsOpen | server/internal/transfer/execution.go:173-180 | when the target's row ties, the query's order is satisfied by the target and by a usable device |
| Scheduler.SelfSourceHappens | server/internal/transfer/execution.go:145-184 | there are tables with a claim that makes the target its own source, at rank 0 because its row wins and at rank 1 because it ties |
| Scheduler.BlockHappens | server/internal/transfer/execution.go:165-188 | on tables with one eligible task the device's claims are blocked if and only if its object has no active entry |
| Scheduler.BlockedStays | server/internal/transfer/execution.go:135-188 | with the tables unchanged, a blocked claim stays blocked until a task that precedes the blocked one becomes eligible |
| Scheduler.Candidates | server/internal/transfer/execution.go:145-184 | after the refresh the rows that can be picked are exactly the usable devices and, if its row is enabled and its copy servable, the target |
| SchedulerSafety.OneLiveTask | server/migrations/postgres/004_transfer_execution.up.sql:19-21 | in every reachable state, whatever is reported, at most one live task exists for an object and target |
| SchedulerSafety.TasksOnlyAdvance | server/internal/transfer/transfer.go:364-424 | over any stretch of any run no task is lost, its identity is fixed and its version grows with every change |
| SchedulerSafety.EndedForever | server/internal/transfer/execution.go:191-277 | a task that ended without a lease is never touched again, and every task ends without one unless a terminal state was reported before |
| SchedulerSafety.CleanExactly | server/internal/transfer/transfer.go:364-424 | all ended tasks carry no lease throughout a run of the tables if and only if no report of a terminal state was accepted |
| SchedulerSafety.CompletionDeliversCopy | server/internal/transfer/execution.go:191-239 | in every run a task becomes completed by CompleteReplica, from verifying, for the lease holder and with a ready copy of the object's size in the same step, or else by an accepted report of completed, which touches no copy |
| SchedulerSafety.SelfRowExactly | server/internal/transfer/transfer.go:429-475 | in every run a task lists its own target as a source if and only if some AddSource named it |
| SchedulerSafety.ClaimsAreServed | server/internal/transfer/execution.go:125-189 | in every run the source of a claim is another active device with a servable copy, and no such device was seen more recently, unless the target's own row wins, and then always, or ties |
| SchedulerSafety.ClaimsTakeDueTasks | server/internal/transfer/execution.go:135-144 | in every run a claimed task is open, not paused, without a running lease, its object has an active entry, and some other active device can serve it |
| SchedulerSafety.ClaimsTakeTheFirst | server/internal/transfer/execution.go:135-144 | in every run any other such task has a lower priority, or a later creation at the same priority, or a greater id at the same creation |
| SchedulerSafety.ClaimTerms | server/internal/transfer/execution.go:160-188 | what a granted claim writes and tells the Agent: one more attempt and version, the lease asked for, between a second and a day, and the content of the object |
| SchedulerSafety.OnlyIfAdded | server/internal/transfer/transfer.go:429-475 | a target row wins or ties only for a task whose own target some AddSource named before |
| SchedulerSafety.SelfSourcedClaims | server/internal/transfer/execution.go:165-184 | in every run a claim makes the target its own source only from an enabled row of rank at most one with a servable copy, at rank one with no servable device seen later; and always at a lower rank, or at rank one seen later than every one of them |
| TransferAgent.Agent.ExecuteOneTransfer | client/ubuntu/internal/agentsync/client.go:383-501 | with nobody else acting a job is taken exactly if the claim is answered and finds an unblocked task; whatever others do to the scheduler between the requests, completed is recorded only when this attempt completed the task, five versions after its claim, with the checked bytes registered; when nobody else acts and the lease lasts, the lease is released, both sides agree, and the task is completed, each exactly under a stated condition on the messages and the bytes |
| TransferAgent.LostAnswerKeepsLease | client/ubuntu/internal/agentsync/client.go:397-414 | after an accepted report the failure report is accepted within the lease if and only if the answer was heard, and a claim succeeds exactly after the lease |
| Download.DownloadReplica | client/ubuntu/internal/agentsync/client.go:542-628 | file and outcome are those of the specified attempt for every response and interruption |
| Download.AttemptBounded | client/ubuntu/internal/agentsync/client.go:542-628 | against any source at most size+1 bytes are kept and success means the exact length |
| Download.ResumeIsExact | client/ubuntu/internal/agentsync/client.go:542-628 | over any number of interrupted attempts against sources serving the bytes by Range and Content-Range the partial file is a prefix of the content and success means equality |
| Download.UndisturbedSucceeds | client/ubuntu/internal/agentsync/client.go:542-628 | a response with status 200 and the content, or 206 from the offset asked with the rest, that advertises no other hash and is neither cut nor cancelled makes the attempt succeed |
| Download.UndisturbedCopy | client/ubuntu/internal/agentsync/client.go:585-628 | an accepted body that fits is kept entirely, also when the connection broke, and the outcome depends on that and the length alone |
| Download.RefusedExactly | client/ubuntu/internal/agentsync/client.go:542-584 | a complete file needs no request; a missing response, another status, another advertised hash or a partial response from elsewhere each give their error and keep the resumable file; nothing else is refused |
| Download.CanceledNeverSucceeds | client/ubuntu/internal/agentsync/client.go:596-628 | an attempt cancelled at any read, the last included, does not succeed |
| Staging.Stage | client/ubuntu/internal/storage/object.go:120-203 | however the source splits into reads, success leaves the whole content in the part file with its hash, size and batch manifest; a failed read or a cancellation leaves both directories unchanged |
| Staging.StreamedExactly | client/ubuntu/internal/storage/object.go:150-190 | streaming succeeds exactly if no read up to the end was cancelled and none failed, and its content is then all the bytes of those reads in order |
| Staging.StagedImport.Commit | client/ubuntu/internal/storage/object.go:89-115 | the staged content appears under its own hash, the part file is gone, nothing else changes |
| Staging.StagedImport.Discard | client/ubuntu/internal/storage/object.go:73-81 | safe before and after Commit and repeatedly: only the part file ever goes |
| ChunkHasher.Hasher.Write | client/ubuntu/internal/storage/hasher/hasher.go:111-141 | absorbs all of its input and keeps the closed chunks those of the input so far |
| ChunkHasher.Hasher.Finish | client/ubuntu/internal/storage/hasher/hasher.go:157-163 | returns the batch manifest of everything written |
| ChunkHasher.HashParts | client/ubuntu/internal/storage/hasher/hasher.go:185-207 | for any splitting into writes the result is the manifest of the concatenation |
| ChunkHasher.ManifestUnique | client/ubuntu/internal/storage/hasher/hasher.go:157-163 | bytes and chunk size determine the manifest, so every splitting gives the same one |
| ChunkHasher.ManifestTiles | client/ubuntu/internal/storage/hasher/hasher.go:144-154 | chunks are numbered from 0, adjoin, are never empty, and each hash is that of its slice |
| ChunkHasher.ManifestCovers | client/ubuntu/internal/storage/hasher/hasher.go:144-154 | together the chunks are as long as the input |
| ChunkHasher.CountMatchesServer | server/internal/catalog/unified.go:114-115 | the manifest has the server's number of chunks exactly when the file is not empty |
| Sessions.Service.RotateRefreshAtomically | server/internal/identity/session.go:283-357 | an unknown token is refused without effect; one of a revoked or expired session revokes every unrevoked session of its family; otherwise, unless the new hash is taken, the session is revoked and a successor with its user, device and family and the new hash and expiry inserted |
| Sessions.Service.Create | server/internal/identity/session.go:38-63 | the row a login inserts, field by field, exactly if its hash is free |
| Sessions.Service.Rotate | server/internal/identity/session.go:211-277 | rotates exactly an unrevoked session that expires later, with the successor's fields; otherwise no effect |
| Sessions.Service.Revoke | server/internal/identity/session.go:168-190 | revokes a live session once |
| Sessions.Service.RegisterDevice | server/internal/identity/service.go:409-472 | reuses or reactivates the device of the peer id, refuses another account's, and inserts a session in a family of its own with the hash and expiry of the ticket |
| Sessions.Service.DeregisterDevice | server/internal/identity/service.go:187-204 | device and all its sessions in one transaction |
| Sessions.Service.ChangePassword | server/internal/identity/service.go:145-161 | revokes every session of the user but the current one |
| SessionFamilies.FamiliesAreChains | server/internal/identity/session.go:211-357 | in every reachable state a family is one chain of rotations on one device of one user, and only its last session can be unrevoked |
| SessionFamilies.ReplayEndsFamily | server/internal/identity/session.go:307-327 | after a replayed or expired refresh no session of the family is live or usable ever again |
| SessionFamilies.RefreshExactly | server/internal/identity/session.go:283-357 | in every reachable state a refresh is granted exactly for an unrevoked, unexpired session and a new hash that is free; then that session is revoked, its successor has its user, device and family and the expiry of the call, and nothing else changes |
| SessionFamilies.AuthenticatesExactly | server/internal/identity/service.go:545-579 | the exact condition on session, device and user under which an access token is accepted |
| SessionFamilies.SessionLasts | server/internal/identity/service.go:545-579 | from its issue on a session is accepted at any later point of the run exactly until its ticket's expiry, while it was not revoked and device and user are active |
| SessionFamilies.GrantedOnce | server/internal/identity/session.go:279-282 | a refresh token is granted at most once in a run; presenting it again ends the family |
| SessionFamilies.DeregistrationIsFinal | server/internal/identity/service.go:187-204 | sessions present at deregistration, and any of their families, never authenticate or refresh again, even after reactivation |
| SessionFamilies.PasswordChangeSignsOut | server/internal/identity/service.go:120-122 | after a password change no earlier session but the one that made it is usable again |
| DeltaSync.EventLog.PublishEventTx | server/internal/sync/sync.go:57-104 | the event gets the next number and the log stays numbered without gaps |
| DeltaSync.EventLog.GetEvents | server/internal/sync/sync.go:107-143 | the first events after the cursor, in order, at most the normalised limit, as `DeltaSync.PageExactly` gives on the log |
| DeltaSync.EventLog.DeltaSync | server/internal/sync/sync.go:201-230 | has_more is true if and only if an event is left after the page |
| DeltaSync.PageExactly | server/internal/sync/sync.go:107-143 | a page is the stretch of the log after the cursor of the length asked for, 100 if that is not 1 to 500, cut at the end |
| DeltaSync.ResponseExactly | server/internal/sync/sync.go:201-230 | with that page, has_more exactly when the log goes on behind it, and the latest number is the length of the log |
| DeltaSync.HasMoreWhileGrowing | server/internal/sync/sync.go:201-230 | with events published between reading the page and the latest number, has_more true means something is left, and false that nothing of the log the page was read from is |
| DeltaSync.FollowIsComplete | server/internal/sync/sync.go:201-230 | from any cursor and with any limit, following has_more stops and yields each later event once, in order |
| DeltaSync.NothingLostOrRepeated | server/internal/sync/sync.go:107-143 | while the log grows between polls, what was received and what is still to come are exactly the events after the first cursor |
| DeviceCommands.Repository.ClaimDeviceCommand | server/internal/catalog/commands.go:54-78 | the oldest command of the device that is queued or whose lease ran out, and nothing only when there is none; one more attempt and a lease as asked, or two minutes if that is not positive and at most ten |
| DeviceCommands.Repository.FinishDeviceCommand | server/internal/catalog/commands.go:80-113 | ends or requeues a leased command; a confirmed purge marks the device's copies deleted |
| DeviceCommands.CommandLifecycle | server/internal/catalog/commands.go:80-113 | at most ten failures are accepted, a command fails for good only after ten claims, and nothing happens to a finished one |
| DeviceCommands.LeasesExclude | server/internal/catalog/commands.go:54-78 | in every run, between two claims of a command lies a finish or the end of the first lease |
| DeviceCommands.BackoffIsIgnored | server/internal/catalog/commands.go:54-96 | a failed command can be claimed again at once exactly while attempts are left |
| DeviceCommands.AnyClaimantFinishes | server/internal/catalog/commands.go:80-96 | in every run a finish is accepted exactly while the command is leased, with the same effect whichever claimant sends it |
| DeviceCommands.FinishIsLatest | server/internal/catalog/commands.go:54-96 | in every run an accepted finish is the latest claimant's if and only if the attempt number it was handed is still the command's |
| DeviceCommands.StaleFinish | server/internal/catalog/commands.go:54-96 | with a clock that does not go back, a finish of an earlier claim takes effect only after an accepted finish since that claim, or once that claim's lease has ended |
| DeviceCommands.StaleFinishHappens | server/internal/catalog/commands.go:54-96 | both ways happen: a repeated failure inside the first lease, and a finish after it, each end or requeue the second claim |

## Left out

- HTTP routing, JSON and SQL text, cryptography (tokens, passwords, signatures), configuration and logging: plumbing or abstract functions.
- SQL isolation: every transaction is atomic; interleavings of statements outside a transaction (the separate statements of `CreateManagedFolder`, skipped locked rows in claims) are not modelled.
- Filesystem details: permissions, symbolic links, fsync, part files left behind by a crash while staging; files are a map from hash to bytes, and in the system runs a staged import is its bytes.
- The chunk manifest table (`SaveChunks`): a crash before it leaves an object without a stored manifest; nothing else depends on it.
- SystemTheorems.ServerAcceptsEverything: a refusal of authentication that persists after a successful token refresh is outside the runs; the code then marks the report failed (`Outbox.Queue.Deliver` covers it), and `SystemTheorems.NothingFails` does not speak of it.
- SystemTheorems.DrainedMeansAgreement: one device, names the server stores unchanged, no server-originated actions; file mutations that queue no report are outside its runs, because the claim is about reported changes.
- SystemTheorems.CrashSafety: local calls run one at a time with crashes between their statements; two calls interleaving statement by statement are not modelled.
- ObjectStore.SQLiteObjectStore.StartupRecovery: one clock value for the whole pass; timestamps of verification are kept in rows but not in plans.
- `reconcileExisting`, whose creation-order replay can meet a name conflict; the clean-up of completed outbox rows and the expiry of idempotency keys.
- Applying a received device command to the local store: it only calls operations modelled here.
- ObjectStore.SQLiteObjectStore.ListExpired: the order by id among equal deadlines, because ids are only compared for equality.
- Names of entries in an assignment, MIME types and endpoints of sources: carried along, never decided on.
- TransferTask.Fencing: a claimant is identified by the version it counts; a caller that guesses the current version is not told apart from the holder, as in the code.
- TransferAgent.Agent.ExecuteOneTransfer: that the lease is released and both sides agree is stated for attempts during which nobody else acts and the lease lasts; others may otherwise cancel or reclaim the task, which the run theorems cover.
- Sessions.Service.RegisterDevice: validation of names and the uniqueness of device public keys are left out.
- Rows are keyed by natural keys (origin device and client file id, insertion number of an outbox row) where the code uses generated UUIDs; generated ids are parameters required to be new.
- One account at a time; shares, the websocket hub, libp2p, mDNS, the Android client and the separate `trash` and `replica` packages.
