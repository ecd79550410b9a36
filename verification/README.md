# Verification of a Docker cloud manager's core

The repository runs users' image builds, compose deployments and container operations on one host. Its guarantees come
from SQL transactions, outbox tables, an at-least-once message queue and advisory locks. This project models that code in
Dafny and proves what it keeps under every interleaving and across restarts.

| file | models |
|---|---|
| `BuildRows.dfy` | builds, images and build outbox rows, and the transactions on them |
| `BuildProtocol.dfy` | the image-build lifecycle as a state machine, its invariant, and what no run takes back |
| `BuildServices.dfy` | repository methods, outbox worker, builder handler, completion, cancellation, garbage collection |
| `DiskAccounting.dfy` | disk use of images, and the quota check before an image replacement |
| `Admission.dfy` | host memory and CPU pools, the queue limit, and the capacity lock |
| `StagedObjects.dfy` | reservations of staged bytes, and the bounded reader |
| `Submission.dfy` | submitting builds with compensation, clean-up, and the reservations of active builds |
| `BuilderSlots.dfy` | the builder's slot counter and its map of builds under way |
| `ComposeProtocol.dfy`, `ComposeServices.dfy` | compose jobs across restarts: start, cancel, complete, recover, outbox, handler |
| `ResourceOperations.dfy` | claim, requeue, complete, recovery, and deleting a container under creation |
| `AdvisoryLocks.dfy` | the lock-taking methods, with any hash function |
| `ServiceGraph.dfy` | saving and reading a project's service graph |
| `LogSanitizer.dfy` | the build log sanitizer and `ReplaceAll` |
| `RelativePath.dfy` | validating and cleaning relative paths |
| `Runs.dfy`, `Sums.dfy`, `Database.dfy` | runs of a step relation, sums over sets of rows, failing statements |

## How concurrency is modelled

A protocol module holds the whole system state: tables, messages that the broker still holds, and a history. Each step is
one transaction, one broker operation, or one reading. Where the code acts on something it read earlier, the step is
enabled once that reading is in the history, however old it is. Runs are any sequences of such steps, so crashed, slow and
stale processes are all covered.

A service module then holds the code. Each method is a sequence of statements; `Interfere` between two of them stands for
any number of steps by others. What a process relies on there is what every other one is proved to promise of each of its
own steps (`OthersAreInterference`, `PromiseMeetsReliance`, `IdleKeyIsHarmless`). `Commit` is accepted only for a step that
the protocol allows in the current state and that does to the protocol's state what the statement did to the tables, so a
method that verifies takes protocol steps only. The ghost field `own` records the steps of the running process alone: the
contracts say which they are. Statements may fail at any time, unless the object's database is `healthy`.

## What is assumed

- Fresh UUIDs never repeat. An error from a commit means that nothing was committed, except where a lost answer is modelled
  (starting and completing a build through the core client, and publishing a message).
- The broker keeps a message until its handler returns without error or it is moved to the dead letter queue.
- Limits do not change during a run. Pool factors are reals, rounded down. Host metrics keep their values.
- Disk use is the sum of image sizes plus the volumes' bytes rounded up to megabytes.
- When the core starts, the processes of its predecessor are dead. Compose jobs are only completed with terminal statuses.
- Garbage collection's cutoff for staged objects is longer than a submission takes.
- Characters stand for what the code treats as bytes or runes; invalid UTF-8 is not modelled.

## What was found

Where a hoped-for property is false of the code, the code is kept and the exact limit is proved.

- Deleting a build that is still active leaves its building image behind, and from then on no build of that owner and tag can
  be created (`DeletingActiveBuildBlocksItsTag`). Nothing else blocks a tag for good (`BlockedTagHasACause`).
- Two completions of different tags can both pass the disk check and together exceed the quota
  (`RacingCompletionsCanPassTheQuota`). A completion keeps the quota exactly when its check would still pass at its
  transaction (`SuccessKeepsQuotaExactly`), as it does if none of the owner's images are written in between.
- A reservation is read off a container's two statuses, and status writes are neither locked nor checked. A stop frees CPU
  at once; if it then fails for good, the old status comes back and with it the reservation, even if builds have taken its
  place (`FailedStopPassesThePool`). Failed deletions and observed starts do the same. The CPU pool is kept exactly by runs
  in which every such return fits (`AdmissionIsInvariant`), and never exceeded by more than came back
  (`ExcessIsWhatReturned`).
- The container memory check does not count builds, so the memory pool has no joint bound (`ContainersDoNotSeeBuildMemory`);
  it is kept exactly by containers that also fit beside the builds (`RecordingFitsExactly`).
- The service graph is read by two queries. A save between them can leave a dependency on a service that was not read
  (`SaveBetweenReadingsOpensIt`); the exact condition is in `ReadGraphIsClosed`.
- A registry address can be put together again from the mark and what stands beside it, exactly if the two have a border
  (`ReplaceAllRemovesExactly`). No address without brackets has one, unless the mark contains it.
- `Reserve` reports success for a key that was released before without reserving anything (`ReserveAgainAfterRelease`).
- Without a positive maximum of attempts, nothing bounds the retries of compose jobs or operations.
- The compose handler ignores a failing cancel write and acknowledges the message. A canceled job that recovery had queued
  again can then stay queued with no message anywhere (`CanceledJobCanBeStranded`); no other queued job can
  (`NoQueuedJobIsLost`).
- Cleaning a cleaned path again can name another place (`CleaningTwiceCanMove`), exactly when the cleaned path has space at its
  ends (`CleaningTwice`).

## Model

| member | source | states |
|---|---|---|
| `BuildProtocol.NoPendingBuildIsOrphaned` | backend/internal/core/service/build_outbox_worker.go:67-98 | in every reachable state a pending build has an outbox row that is unsent or publishing, or a message the broker still holds |
| `BuildProtocol.OutboxTellsTheTruth` | backend/internal/core/repository/build.go:356-498 | a published row implies a real publish; a discarded row announces a build that is terminal or gone, now and in every later state |
| `BuildProtocol.StartedAtMostOnce` | backend/internal/core/repository/build.go:116-146 | over any run a build is reported started once at most; while it is pending nothing was started or acknowledged; messages are conserved |
| `BuildProtocol.SettledOnce` | backend/internal/core/repository/image.go:220-318 | racing completions and cancels change a build once; a terminal row never changes until it is deleted, and settled stays settled |
| `BuildProtocol.FailedBuildHasNoImage` | backend/internal/core/repository/image.go:274-318 | a build settled as failed or canceled has no image row, then or ever after |
| `BuildProtocol.OneImagePerTag` | backend/migrations/core/0013_allow_image_tag_replacement.up.sql:3-9 | both partial unique indexes hold in every reachable state, although transactions delete and publish images |
| `BuildProtocol.ActiveBuildOwnsItsImage` | backend/internal/core/repository/build.go:39-85 | a pending or running build has its own image row: building, of its owner, with size 0, shared with no other build |
| `BuildProtocol.SuccessPublishesTheImage` | backend/internal/core/repository/image.go:258-269 | success leaves the build's image available with its size as the only row of its owner and tag |
| `BuildProtocol.DeletingActiveBuildBlocksItsTag` | backend/internal/core/service/build.go:903-917 | after an active build's row is deleted no build of that owner and tag can be created in any later state |
| `BuildProtocol.BlockedTagHasACause` | backend/internal/core/repository/build.go:39-61 | a tag is refused exactly while an active build, or one deleted when active, holds a building image of it |
| `BuildProtocol.InvStep` | backend/internal/core/repository/build.go:39-146 | every step of every process keeps the joint invariant of rows, images, counters, outbox and readings |
| `BuildProtocol.LaterKeeps` | backend/internal/core/service/build.go:716-856 | the invariant over whole runs, and what no run takes back: identities, terminal statuses, deletions, counters, readings |
| `BuildServices.NormalizeFailedBuildStatus` | backend/internal/core/service/build.go:934-946 | any reported string becomes a terminal failure status, and a failure status is kept as it is |
| `BuildServices.Core.CreateQueuedBuild` | backend/internal/core/repository/build.go:39-85 | inserts image, build and outbox row together, or nothing; refused exactly on a key or index conflict |
| `BuildServices.Core.ClaimPending` | backend/internal/core/repository/build.go:116-133 | moves a pending row to running and returns it; any other row is left alone and nothing is returned |
| `BuildServices.Core.MarkBuildFailedAndDeleteImage` | backend/internal/core/repository/image.go:274-318 | settles an active build and deletes its image together; does nothing to a settled one |
| `BuildServices.Core.UpdateBuildAndImageSize` | backend/internal/core/repository/image.go:220-272 | settles an active build, removes the other rows of its tag and publishes its image; does nothing to a settled one |
| `BuildServices.Core.LeasePendingBuildOutbox` | backend/internal/core/repository/build.go:356-415 | leases at most the limit of rows, all unsent or publishing, and changes no other row |
| `BuildServices.Core.MarkOutbox` | backend/internal/core/repository/build.go:417-498 | an unguarded write to one outbox row, with the case of a missing row |
| `BuildServices.Core.PublishItem` | backend/internal/core/service/build_outbox_worker.go:73-96 | publishes, discards or gives back one leased row, by the only sequences of steps the worker takes; a discarded row's build is settled for good |
| `BuildServices.Core.PublishBatch` | backend/internal/core/service/build_outbox_worker.go:67-98 | leases rows and takes exactly the steps of one row after another; every row reported sent put a message on the queue, every row discarded is settled, under any interference |
| `BuildServices.Core.InsertBuild` | backend/internal/core/service/build.go:707-710 | success leaves a pending build with an unsent outbox row, by one step; failure takes none |
| `BuildServices.Core.Claim` | backend/internal/core/repository/build.go:116-133 | a returned row means that this call raised the count of starts from 0 to 1 |
| `BuildServices.Core.StartBuildRecord` | backend/internal/core/service/build.go:716-726 | started means first start ever; not started means that the build was read as not pending |
| `BuildServices.Core.CompleteBuildRecord` | backend/internal/core/service/build.go:779-856 | takes at most one settling step, the one that the report demands; without error the build is terminal or deleted for good |
| `BuildServices.Core.CompleteSuccess` | backend/internal/core/service/build.go:803-851 | a reported success ends as success of at least 1 MB, as an internal failure, or as a quota failure when the check on the sums it read says no |
| `BuildServices.Core.CheckQuota` | backend/internal/core/service/build.go:822-850 | the two sums are read apart; the answer is the check of the rows that were summed, and that of the present rows if they still have these sums |
| `BuildServices.Core.CancelBuildRecord` | backend/internal/core/service/build.go:728-753 | takes at most one step, a cancellation of an active build; without error the build is settled |
| `BuildServices.Core.DeleteBuild` | backend/internal/core/service/build.go:903-917 | success removes the build row and its outbox row |
| `BuildServices.Core.HandleBuildMessage` | backend/internal/builder/service/builder.go:175-265 | no error means that the build is not pending, and terminal or deleted if this handler started it; the steps are a claim and one completion |
| `BuildServices.Core.HandleDelivery` | backend/internal/builder/infrastructure/rabbitmq/consumer.go:137-152 | acknowledges only after a handler without error; every other message goes back to the queue or to the dead letters |
| `BuildServices.Core.PruneStaleBuilds` | backend/internal/core/service/gc_worker.go:106-109 | settles stale builds by timeouts only, and every one it reports is settled |
| `DiskAccounting.BytesToMBRoundedUp` | backend/internal/core/service/disk_usage.go:3-9 | the least number of megabytes that holds the bytes |
| `DiskAccounting.ReplacedIsCounted` | backend/internal/core/repository/image.go:191-211 | the replaced sum is part of the used sum, so the negative clamp never fires |
| `DiskAccounting.ReplacementIsExact` | backend/internal/core/repository/image.go:258-269 | success changes its owner's use by exactly the new size less what it replaces, and no other owner's |
| `DiskAccounting.OnlySuccessIsCharged` | backend/internal/core/repository/image.go:298-316 | creating, starting, failing, canceling and deleting builds leave every owner's use as it was |
| `DiskAccounting.Completion.CompleteSuccess` | backend/internal/core/service/build.go:817-851 | with no image write in between, success exactly when the predicted use fits the quota, and the use afterwards is the predicted one |
| `DiskAccounting.CheckIsPlain` | backend/internal/core/service/build.go:822-850 | the check with its clamp passes exactly when use, less what is replaced, plus the new size is within the quota |
| `DiskAccounting.SuccessKeepsQuotaExactly` | backend/internal/core/service/build.go:822-850 | a completion checked in one state and committed in any later one keeps the quota exactly when the same check passes in the later state |
| `DiskAccounting.QuietSuccessKeepsQuota` | backend/internal/core/service/build.go:822-850 | a check that passed is kept if no image of the owner, other than empty ones, is written before the transaction |
| `DiskAccounting.RacingCompletionsCanPassTheQuota` | backend/internal/core/service/build.go:822-850 | a run in which both checks pass and the owner ends above the quota |
| `Admission.Pool` | backend/internal/core/service/admission.go:11-20 | the largest whole number within the factor times what is available, or 0 |
| `Admission.BuildCPUMillicores` | backend/internal/core/service/admission.go:113-118 | the quota's share of a period in millicores, rounded down, or 0 |
| `Admission.EnsurePoolAdmission` | backend/internal/core/service/admission.go:22-34 | admits exactly when the pool is positive and the clamped request fits beside what is reserved |
| `Admission.ProtocolStepsAreHostSteps` | backend/internal/core/repository/build.go:320-338 | in the build protocol only creation adds an active build, and exactly its own |
| `Admission.StepKeepsCPU` | backend/internal/core/service/container_admission.go:89-104 | every step keeps reserved and promised CPU within any bound it was checked against, raised by what a status write returns without admission |
| `Admission.ReturnFitsExactly` | backend/internal/core/repository/container.go:599-608 | a status write keeps the CPU bound exactly when the reservation it brings back fits beside what is reserved and promised |
| `Admission.AdmissionIsInvariant` | backend/internal/core/service/build.go:195-252 | a run of builds and containers stays in the CPU pool throughout exactly when every reservation that comes back without admission fits when it does |
| `Admission.ExcessIsWhatReturned` | backend/internal/core/service/container_create_async.go:671-685 | in any run CPU exceeds the pool by at most the sum of what came back without admission |
| `Admission.QueueIsInvariant` | backend/internal/core/service/build.go:235-252 | over any run an owner has no more active builds than the queue limit |
| `Admission.MemoryIsInvariantForBuilds` | backend/internal/core/service/build.go:195-225 | while no start is recorded, container memory plus build memory exceeds the pool by at most what came back without admission |
| `Admission.EveryRunFits` | backend/internal/core/service/build.go:636-710 | from an empty host: CPU is at most the pool plus what came back, in the pool throughout exactly when each return fits, and owners are within the queue limit |
| `Admission.FailedStopPassesThePool` | backend/internal/core/service/container_create_async.go:671-685 | a run in which a stop that fails for good leaves twice the CPU pool reserved |
| `Admission.ContainersDoNotSeeBuildMemory` | backend/internal/core/service/container_admission.go:80-87 | a run from an empty host in which a build and a container together reserve one and a half times the memory pool |
| `Admission.RecordingFitsExactly` | backend/internal/core/service/container_admission.go:80-87 | recording an admitted start keeps the joint memory bound exactly when the container fits beside the builds, which the check does not ask |
| `StagedObjects.StagedObjectRepository.Reserve` | backend/internal/core/repository/staged_object.go:22-60 | never lets an owner's active bytes pass the maximum; success holds the key exactly if the key was new or still active |
| `StagedObjects.StagedObjectRepository.UpdateBytes` | backend/internal/core/repository/staged_object.go:62-79 | resizes the active row of the key only, and reports whether there was one |
| `StagedObjects.StagedObjectRepository.Release` | backend/internal/core/repository/staged_object.go:81-98 | ends the active row of the key only, and reports whether there was one |
| `StagedObjects.MaxBytesReader.Read` | backend/internal/core/service/build.go:964-979 | delivers the source in order, never beyond the limit; reports too large only for a source beyond it |
| `StagedObjects.DeliveredFits` | backend/internal/core/service/build.go:964-979 | however often it is read, the bounded reader delivers a start of its source and never more than its limit |
| `StagedObjects.Upload` | backend/internal/core/service/build.go:420-421 | what is stored is what the reader can deliver; an upload that ends cleanly has the whole source, and a source beyond the limit never ends cleanly |
| `StagedObjects.StepWithinQuota` | backend/internal/core/repository/staged_object.go:22-98 | every step of archive and git uploads keeps every owner within the maximum, an upload storing whatever its bounded reader can deliver |
| `StagedObjects.StagedBytesStayWithinQuota` | backend/internal/core/service/build.go:407-435 | over every interleaving an owner's active reservations stay within the configured maximum |
| `StagedObjects.ResizeIsExact` | backend/internal/core/repository/staged_object.go:62-79 | a resize has no check of its own: it keeps an owner within the maximum exactly when the new size fits beside the owner's other bytes |
| `StagedObjects.ReserveAgainAfterRelease` | backend/internal/core/repository/staged_object.go:47-57 | success without a reservation happens exactly for a key that was released before |
| `Submission.BuildDesk.CreateBuildJob` | backend/internal/core/service/build.go:617-714 | a created build fits the queue limit and, but for what containers got back meanwhile, both pools, itself counted; a refused one leaves no rows |
| `Submission.BuildDesk.CreateLocked` | backend/internal/core/service/build.go:636-710 | the same, counting only what came back while the lock was held |
| `Submission.BuildDesk.CheckCapacity` | backend/internal/core/service/build.go:195-252 | an admission under the lock leaves room for one more build when it is used, but for what came back between its queries |
| `Submission.BuildDesk.ReadReserved` | backend/internal/core/service/build.go:195-218 | what is reserved after three queries under the lock exceeds what they add up to by at most what came back between them |
| `Submission.BuildDesk.CreateBuildFromArchive` | backend/internal/core/service/build.go:376-457 | all or nothing: pending build, outbox row, whole archive and a covering reservation; or no rows and, if compensation went through, no object and no reservation; nothing else changed by it |
| `Submission.BuildDesk.CreateBuildFromGit` | backend/internal/core/service/build.go:459-583 | the same for a repository's archive of known size |
| `Submission.BuildDesk.ReserveStagedBuildArchive` | backend/internal/core/service/build.go:254-272 | success covers the clamped bytes of the key, failure changes nothing, other keys are untouched, every owner stays within the maximum |
| `Submission.BuildDesk.UpdateStagedBuildArchiveBytes` | backend/internal/core/service/build.go:297-313 | the reservation still covers the object, whether or not the resize happened, and no owner's sum grows |
| `Submission.BuildDesk.Undo` | backend/internal/core/service/build.go:412-419 | if its deletes go through, neither object nor reservation is left |
| `Submission.BuildDesk.CleanupBuildArchive` | backend/internal/core/service/build.go:755-768 | releasing a settled build's archive takes nothing from an active build |
| `Submission.BuildDesk.CancelBuildRecord` | backend/internal/core/service/build.go:728-753 | every active build keeps its object and reservation, and no step of it touches a submission under way or admits anything |
| `Submission.BuildDesk.CompleteBuildRecord` | backend/internal/core/service/build.go:779-856 | the same for every way a completion ends |
| `Submission.BuildDesk.ListStaleActive` | backend/internal/core/repository/staged_object.go:110-153 | lists only reservations of keys that no active build and no submission under way has |
| `Submission.BuildDesk.CleanupStaleStagedObjects` | backend/internal/core/service/gc_worker.go:114-133 | working from a list that may be stale, it takes nothing from an active build or a submission under way |
| `Submission.IdleKeyIsHarmless` | backend/internal/core/service/build.go:755-768 | deleting the object and reservation of an idle key is seen by no submission under way |
| `Submission.SettledIsHarmless` | backend/internal/core/repository/image.go:220-318 | settling a build is seen by no submission under way, and admits nothing |
| `Submission.PromiseMeetsReliance` | backend/internal/core/service/build.go:405-453 | what one submission changes no other submission under way can see, and until its rows are in it admits nothing |
| `BuilderSlots.BuilderService.AcquireBuildSlot` | backend/internal/builder/service/builder.go:118-139 | reports a slot exactly if it holds one, and then the count is within the limit, a limit below 1 counting as 1 |
| `BuilderSlots.BuilderService.ReleaseBuildSlot` | backend/internal/builder/service/builder.go:141-147 | takes exactly its own slot off the count; the guard is never needed |
| `BuilderSlots.SectionIsMineKept` | backend/internal/builder/service/builder.go:118-214 | what every critical section promises is what every other handler relies on |
| `BuilderSlots.OthersAreInterference` | backend/internal/builder/service/builder.go:118-214 | any number of sections of other handlers leaves a handler its presence, its slot, its claims and its entry |
| `BuilderSlots.BuilderService.HandleBuildMessage` | backend/internal/builder/service/builder.go:175-214 | under any interference it returns holding no slot and with no entry of its own in the active map, and without error only if the build is no longer pending |
| `BuilderSlots.BuilderService.BuildInSlot` | backend/internal/builder/service/builder.go:187-214 | registering overwrites no other handler's entry, and its own is still there to be taken out, whatever sections others run |
| `BuilderSlots.DrainedMeansIdle` | backend/internal/builder/service/builder.go:149-173 | once the wait group is empty the count is 0 and the active map empty |
| `BuilderSlots.BuildsWithinSlots` | backend/internal/builder/service/builder.go:207-214 | builds under way have a handler each and are at most as many as slots taken, which stay within the limit |
| `ComposeProtocol.StartsAreBounded` | backend/internal/core/repository/project.go:180-229 | over any starts, cancels, completions and restarts a job starts at most maxAttempts times; a queued job has an attempt left |
| `ComposeProtocol.NoQueuedJobIsLost` | backend/internal/core/service/compose_outbox_worker.go:64-94 | a queued job has a row to send or a held message, but for a canceled one whose cancel write failed |
| `ComposeProtocol.RecoveryResends` | backend/internal/core/repository/project.go:452-540 | recovery fails an interrupted job exactly on partial work or exhausted attempts, else queues it with its row to send |
| `ComposeProtocol.CancelIsSticky` | backend/internal/core/repository/project.go:250-270 | after a cancel request a job never runs again and gains no attempt, even when recovery queues it |
| `ComposeProtocol.EndedIsFinal` | backend/internal/core/repository/project.go:200-205 | an ended job stays ended and is never started again |
| `ComposeProtocol.InvStep` | backend/internal/core/repository/project.go:180-540 | every statement, message and restart keeps the invariant of rows, readings and coverage |
| `ComposeProtocol.WithoutMaximumRetriesAreUnbounded` | backend/internal/core/repository/project.go:499-499 | with no positive maximum some run starts a job n times, for every n |
| `ComposeProtocol.CanceledJobCanBeStranded` | backend/internal/core/service/compose/orchestrator.go:871-879 | a run that ends with a canceled job queued, its row published and no message held |
| `ComposeServices.ComposeCore.StartComposeDeploymentJob` | backend/internal/core/repository/project.go:180-229 | starts exactly a queued job that was not canceled, adding one attempt |
| `ComposeServices.ComposeCore.CompleteComposeDeploymentJob` | backend/internal/core/repository/project.go:231-248 | the unguarded status write, with the case of a missing row |
| `ComposeServices.ComposeCore.SaveComposeDeploymentPlan` | backend/internal/core/repository/project.go:368-385 | marks a running job as staged and no other |
| `ComposeServices.ComposeCore.RequestComposeDeploymentCancel` | backend/internal/core/repository/project.go:250-270 | cancels every job of the project that has not ended, and reports if there was none |
| `ComposeServices.ComposeCore.RecoverInterruptedComposeDeployments` | backend/internal/core/repository/project.go:452-540 | the loop over interrupted jobs does to all of them at once what recovery promises for each, or nothing |
| `ComposeServices.ComposeCore.Boot` | backend/internal/core/app/app.go:174-176 | a start of the core is one restart step, whether or not recovery succeeds |
| `ComposeServices.ComposeCore.LeasePendingComposeOutbox` | backend/internal/core/repository/project.go:311-354 | leases at most the limit of rows in one step, all of jobs that were created |
| `ComposeServices.ComposeCore.PublishItem` | backend/internal/core/service/compose_outbox_worker.go:70-93 | publishes, discards or gives back one leased row, by the only sequences of steps the worker takes |
| `ComposeServices.ComposeCore.PublishBatch` | backend/internal/core/service/compose_outbox_worker.go:64-94 | leases rows and takes exactly the steps of one row after another; every row reported sent was published in this life of the core |
| `ComposeServices.ComposeCore.FinishCanceled` | backend/internal/core/service/compose/orchestrator.go:871-879 | the cancel branch ends the job, or gives it up because the write failed, which a healthy database rules out |
| `ComposeServices.ComposeCore.StartJob` | backend/internal/core/service/compose/orchestrator.go:883-899 | a job reported started gained one start; one reported not started was read as not queued or canceled |
| `ComposeServices.ComposeCore.HandleDeploymentMessage` | backend/internal/core/service/compose/orchestrator.go:862-979 | without error the job is no longer queued or was given up; it deploys only what it started and cancels only what it read as canceled |
| `ComposeServices.ComposeCore.HandleDelivery` | backend/internal/core/infrastructure/rabbitmq/consumer.go:132-146 | acknowledges exactly after a handler without error |
| `ResourceOperations.ClaimsAreBounded` | backend/internal/core/repository/container.go:825-904 | however often requeued, recovered or interrupted, an operation is claimed at most maxAttempts times, and attempts counts the claims |
| `ResourceOperations.OneExecutorAtATime` | backend/internal/core/repository/container.go:825-904 | at most one process executes an operation, and none while it is pending |
| `ResourceOperations.OneActiveOperationPerResource` | backend/migrations/core/0007_add_resource_operations.up.sql:14-16 | the unique index holds through claims, requeues and recovery |
| `ResourceOperations.DeletedCreateIsNeverClaimed` | backend/internal/core/repository/container.go:1080-1143 | once the deletion of a container commits, its creation is never active and never claimed again |
| `ResourceOperations.EndedIsFinal` | backend/internal/core/repository/container.go:868-885 | an operation that ended is never pending, running or claimed again |
| `ResourceOperations.RecoveryIsComplete` | backend/internal/core/repository/container.go:944-991 | after recovery nothing is running, and exactly the pending operations and interrupted creations are pending, the creations to be sent again |
| `ResourceOperations.InvStep` | backend/internal/core/repository/container.go:777-1143 | every transaction, message and restart keeps attempts, executors, cancellations and the index in agreement |
| `ResourceOperations.WithoutMaximumRetriesAreUnbounded` | backend/internal/core/repository/container.go:847-852 | with no positive maximum some run claims an operation n times, for every n |
| `ResourceOperations.OperationStore.ClaimPendingOperation` | backend/internal/core/repository/container.go:825-866 | claims exactly a pending operation with an attempt left, adding one attempt |
| `ResourceOperations.OperationStore.ClaimPendingLifecycleOperation` | backend/internal/core/repository/resource_lifecycle.go:124-159 | the second copy of the claim keeps the same contract |
| `ResourceOperations.OperationStore.RequeueOperation` | backend/internal/core/repository/resource_lifecycle.go:173-183 | makes a running operation pending, and reports exactly if there was none |
| `ResourceOperations.OperationStore.CompleteOperation` | backend/internal/core/repository/resource_lifecycle.go:161-171 | the unguarded status write, with the case of a missing row |
| `ResourceOperations.OperationStore.CancelActiveCreateAndDeleteContainer` | backend/internal/core/repository/container.go:1080-1143 | fails the container's active creations, discards their unsent rows and deletes the container, or changes nothing |
| `ResourceOperations.OperationStore.Boot` | backend/internal/core/app/app.go:178-187 | a start of the core leaves no executor, whichever of the two recovery transactions succeed |
| `ResourceOperations.OperationStore.ExecuteQueued` | backend/internal/core/service/volume.go:289-386 | a process that claims is the only executor until it requeues, completes or fails the operation; one that does not may only fail an exhausted one |
| `AdvisoryLocks.InvStep` | backend/internal/core/repository/container.go:1172-1191 | a client holds exactly the locks it took, and every key has one holder at most, for any hash |
| `AdvisoryLocks.CapacityHolderAdvances` | backend/internal/core/repository/build.go:340-354 | who holds the capacity lock waits for nothing, even if names collide |
| `AdvisoryLocks.NobodyWaitsForEver` | backend/internal/core/repository/container.go:694-703 | every unfinished client can step, or waits for one that can, or for one that waits for one that can |
| `AdvisoryLocks.RunsAreBounded` | backend/internal/core/repository/staged_object.go:29-31 | no run is longer than the steps its clients have to take |
| `AdvisoryLocks.RunsEndWithNothingHeld` | backend/internal/core/repository/container.go:1172-1191 | a run that no client can continue has finished every client, and no lock is held, failures and collisions included |
| `ServiceGraph.NodesContents` | backend/internal/core/repository/project.go:585-602 | inserting stores exactly the given graph, and succeeds exactly when code and schema accept it |
| `ServiceGraph.ProjectRepository.SaveServiceGraph` | backend/internal/core/repository/project.go:558-605 | replaces the stored graph by exactly the given one and no other project's, or changes nothing; an invalid condition is refused |
| `ServiceGraph.ProjectRepository.GetServiceGraph` | backend/internal/core/repository/project.go:607-671 | every service of the first query once in start order, each with the second query's rows that have a target in it and in that graph; not found exactly if there was no service |
| `ServiceGraph.RoundTrip` | backend/internal/core/repository/project.go:558-671 | reading after saving, with no save in between, returns as many services, sorted, each with its name, order and the multiset of its dependencies inside the graph |
| `ServiceGraph.NothingDropped` | backend/internal/core/repository/project.go:637-645 | all dependencies come back exactly when all their targets are services of the graph |
| `ServiceGraph.ReadingIsGraphExactly` | backend/internal/core/repository/project.go:607-671 | what the two queries return is the graph of one state exactly when no service of the project changed between them |
| `ServiceGraph.ReadGraphIsClosed` | backend/internal/core/repository/project.go:637-645 | whatever is read stays inside the graph that is read, exactly when no service read depends by then on one that was added after the first query |
| `ServiceGraph.QuietReadingIsClosed` | backend/internal/core/repository/project.go:637-645 | with no save in between it is closed, and its targets and conditions are ones that a save accepts |
| `ServiceGraph.SaveBetweenReadingsOpensIt` | backend/internal/core/repository/project.go:558-605 | for every stored graph an accepted save that, coming in between, leaves a dependency on a service that was not read |
| `ServiceGraph.OrdersStayUnique` | backend/migrations/core/0006_add_project_compose.up.sql:1-9 | saving keeps start orders unique within every project |
| `LogSanitizer.ReplaceAllIsCutAndJoin` | backend/internal/builder/service/log_sanitizer.go:73-80 | replacing is cutting at the pattern and joining with the mark; joining with the pattern gives the text back |
| `LogSanitizer.ReplaceAllRemoves` | backend/internal/builder/service/log_sanitizer.go:79-80 | a bracketed mark removes a pattern without brackets from every text exactly when the mark does not contain it |
| `LogSanitizer.ReplaceAllRemovesExactly` | backend/internal/builder/service/log_sanitizer.go:79-80 | for every pattern and mark: replacing removes the pattern from every text exactly when the two have no border |
| `LogSanitizer.LeadingBracketNoBorder` | backend/internal/builder/service/log_sanitizer.go:79-80 | a pattern that starts with its only opening bracket, as an address in brackets does, has a border with such a mark exactly when the mark contains it or begins it |
| `LogSanitizer.LinesHideTheRegistry` | backend/internal/builder/service/log_sanitizer.go:61-82 | an address without border is in no sanitized line, nor is a destination tag that starts with it, whatever the passes do |
| `LogSanitizer.HidesExactly` | backend/internal/builder/service/log_sanitizer.go:61-82 | for passes that leave the bare address alone: an address without brackets is hidden in every line exactly when neither the mark nor the notice contains it |
| `LogSanitizer.OutputHidesTheRegistry` | backend/internal/builder/service/log_sanitizer.go:39-82 | nor is it anywhere in the whole output, across lines, if the passes keep line breaks |
| `LogSanitizer.NoticeComesOnce` | backend/internal/builder/service/log_sanitizer.go:61-68 | the publish notice comes from the first internal publish line only |
| `LogSanitizer.BuildLogSanitizer.Read` | backend/internal/builder/service/log_sanitizer.go:39-59 | delivers the next piece of the line map's output, not empty if asked for anything, and ends exactly when nothing is left |
| `LogSanitizer.BuildLogSanitizer.Sanitize` | backend/internal/builder/service/log_sanitizer.go:61-82 | one line and the remembered notice, as the line map has it |
| `LogSanitizer.ReadAll` | backend/internal/builder/service/log_sanitizer.go:39-59 | for every sequence of positive buffer sizes the bytes read until the end are the line map's output, and the end comes |
| `RelativePath.ValidationIsExact` | backend/pkg/gitsource/gitsource.go:117-138 | accepts exactly the relative, plain paths no prefix of which climbs above the start |
| `RelativePath.CleanedPathStaysInside` | backend/pkg/gitsource/gitsource.go:140-149 | the cleaned path reaches the place of the original, inside the start, with no ".." and no empty segment |
| `RelativePath.CleanIsCanonical` | backend/pkg/gitsource/gitsource.go:133-148 | two paths clean to the same text exactly when they name the same place |
| `RelativePath.CleanIsIdempotent` | backend/pkg/gitsource/gitsource.go:133-148 | lexical cleaning twice is cleaning once |
| `RelativePath.CleaningTwice` | backend/pkg/gitsource/gitsource.go:140-149 | cleaning a cleaned path gives it back exactly when there is no space at its ends |
| `RelativePath.CleaningTwiceCanMove` | backend/pkg/gitsource/gitsource.go:140-149 | a family of paths for which the second cleaning names another place |

## Left out

- Handlers, gRPC code, the frontend, configuration, logging and reports: no property that spans operations.
- PostgreSQL, RabbitMQ, Docker, Kaniko, MinIO and git themselves: atomic steps, message multisets and arbitrary results.
- Liveness and clocks: leases, timeouts and cutoffs may fire at any time, and nothing is said about when.
- Row locks inside transactions: a transaction is one step.
- BuildRepository.UpdateStatus: it has no guard and no caller in the files read.
- Registry manifests: a cancel deletes one before its transaction, so an available image may have none.
- The builder's cancellation poll, whose status request is refused for the builder's own scope.
- Archive and clone contents, and the validators of repository addresses and refs: they only add easy members.
- The compose submission's upload, which repeats the build archive's reserving and bounded reading, and the compose coordinator.
- The two other copies of the outbox worker, for containers and resources, and their coverage of pending operations.
- User memory and CPU quotas of containers: sums and comparisons only.
- BuildServices.Core.InsertBuild: leaves the capacity checks to Submission.BuildDesk.CreateBuildJob.
- Submission.BuildDesk.CancelBuildRecord: states what its clean-up spares; what it does to the build is stated in BuildServices.
- Submission.BuildDesk.CompleteBuildRecord: states what its clean-up spares; the outcome of a completion is stated in BuildServices.
- BuildServices.Core.PublishBatch: does not promise that a row is sent, because every read, publish and write may fail.
- BuilderSlots.BuilderService.AcquireBuildSlot: polls a given number of times instead of until its context ends.
- RelativePath.CleanIsCanonical: relative paths on a system whose separator is the slash, as the code only cleans those.
- BuildServices.Core.LeasePendingBuildOutbox: leaves out how old a lease must be and the order in which rows are taken.
- ComposeServices.ComposeCore.LeasePendingComposeOutbox: leaves out the same two.
- BuildServices.Core.CompleteSuccess: whether the image has metadata, its bytes and the volumes' bytes are arbitrary readings.
- Admission.AdmissionIsInvariant: a status write may set any two statuses, so which operations write which is not modelled.
- LogSanitizer.HidesExactly: says nothing of addresses with brackets, for which only the sufficient half is proved.
- LogSanitizer.OutputHidesTheRegistry: the three regular-expression passes are arbitrary functions that keep a line's break.
- AdvisoryLocks.RunsEndWithNothingHeld: an unlock that fails on a broken connection is not modelled; the server drops its locks.
