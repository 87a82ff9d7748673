# Contrabass protocols, verified

This project models the parts of Contrabass whose correctness depends on more than one function, and
proves what they guarantee over every run:

- **Team tasks** (`TaskModel`, `TaskRegistry`, `TaskRuns`, `TaskDependencies`). The task store is a map of
  versioned records. Claim, renew, complete, fail, release, reset, create and startup recovery are atomic
  calls; a run is any sequence of them, by any workers, with any tokens and clock readings. Lease expiry
  is computed when a record is read and never written. A call that checks the clock and stamps a lease
  takes two readings, as the code does.
- **Phases and coordinator** (`Phases`, `CoordinatorModel`, `Coordinator`). The plan/prd/exec/verify/fix pipeline, its bounded
  fix loop, the governance gate and the coordination loop on top of the task store.
- **Issue runs** (`IssueRunModel`, `IssueRunRuns`, `IssueRunCalls`, `IssueRun`). One durable object of the cloud control
  plane: record, event log, alarm and database row under dispatch, acknowledgement, heartbeat, events,
  completion, cancellation, revocation and alarms.
- **Orchestrator** (`OrchestratorModel`, `OrchestratorRuns`, `OrchestratorCalls`, `OrchestratorTokens`,
  `Orchestrator`, `Backoff`). Running map, backoff queue, paused set, issue cache, token totals and retry delays.
- **Allocation** (`Allocation`). The greedy scorer that hands tasks to workers.
- **Timeline and comment syncer** (`Timeline`, `TimelineSync`, `TimelineSyncRuns`, `TimelineSyncCalls`,
  `Syncer`). The
  append-only log with hash deduplication, its snapshot, and the passes that mirror it into comments.
- **Formats** (`Sse`, `SseRoundTrip`, `ShellQuote`, `FrontMatter`, `Text`). The event-stream writer and
  reader, shell quoting against a model of the POSIX shell's quoting rules, and the two front-matter
  splitters.

Where the source updates fields, the model has a class whose methods do the same, and each method is
proved equal to a function on values; the theorems over whole runs are about those functions, and say in
terms of earlier calls and of records what each call does. Outside
calls, clocks and tokens are parameters, so every theorem holds for every outcome they may have. Strings
are sequences of characters; integers are unbounded.

`dafny verify dfyconfig.toml` checks everything.

## Findings

Properties that the code does not have as one would first state them, each with the exact condition under
which it does:

- Re-creating a task: `CreateTask` overwrites a stored id. Two successful claims then can see the same
  version (`TaskRuns.RecreateReusesVersions`); they do if and only if the task was written equally often
  since it was created (`SameVersionIff`), and never unless this task is created between them
  (`OneClaimPerVersion`). Likewise a task can be in progress over a pending dependency
  (`TaskDependencies.RecreateUndoesDependency`), if and only if that dependency was created again after the
  claim and not completed again (`DependenciesHoldIff`).
- Root comments: a root comment that was created but whose record the store refused, or that got no id, is
  created again (`TimelineSyncRuns.UnlandedRootIsCreatedAgain`, with the instances
  `UnstoredRootIsCreatedAgain` and `IdlessRootIsCreatedTwice`). A pass asks for one if and only if the node
  is not skipped, none has landed for the run, and no retry is pending (`PassAsksForRootIff`).
- Node comments: a refused update stores a state without the comment's id
  (internal/timeline/linear_syncer.go:233-248), so the next pass creates a second comment
  (`TimelineSyncRuns.RefusedUpdateIsCreatedAgain`). A pass creates a comment, rather than updating one, if and
  only if the node is not skipped, the pass gets past the root and there is no comment it can update
  (`PassCreatesCommentIff`).
- Syncable nodes: the computed hash leaves out the syncable flag, so an upsert that only changes it is
  dropped (`Timelines.SyncableChangeIsLost`). `SnapshotKeepsFirstOfLastHash` says exactly which upsert
  survives. No present caller is affected: all seven calls of `recordTimelineNode` pass true
  (internal/orchestrator/timeline.go:39-63).
- Rows of issue runs: a run that has not ended has a row in the database if and only if there was one before
  its record was made, or an announcement failed after the row was written
  (`IssueRunRuns.OpenRunHasRowIff`); `QueuedWithSucceededRow` is a history that ends with a queued run whose
  row says succeeded.
- Failing phases: a phase body that fails in plan, prd or exec leaves the team in that phase, because the
  transition to failed that the coordination loop asks for is not in the table and is only logged
  (internal/team/coordinator.go:189-200, internal/types/team.go:34-49). `Coordinators.Coordinator.Run` states
  how every run ends: after a failing body in failed if and only if the context is live and the phase is
  verify or fix. `FailingTaskLeavesPlan` is such a run.
- Failed dependencies in exec: the gate lets the team go on to verify only when every task is completed or
  failed, and a task that waits for a failed one is neither. With a worker that has gone through everything
  it could, exec is left if and only if no failed task holds up one that depends on it
  (`Coordinators.Coordinator.RunExecWithOneWorker`); otherwise the team stays in exec and never gets to fix,
  where failed tasks are reset. `FailedTaskHoldsUpExec` shows it.

## Model

| member | source | states |
|---|---|---|
| `TaskRuns.TokenCallSucceedsIff` | internal/team/tasks.go:175-303 | In every run, a renew, complete, fail or release with token t succeeds if and only if the latest successful claim on the task issued t, nothing has given that claim up since, and the call is within the lease of the last stamp |
| `TaskRuns.StoreTracksHolder` | internal/team/tasks.go:119-332 | The store records a claim exactly when the history of calls says one is held, and it is that claim with the stamp of its last renewal |
| `TaskRuns.ClaimIffInProgress` | internal/team/tasks.go:119-332 | In every reachable store a task has a claim exactly when it is in progress |
| `TaskRuns.RenewalsWereInTime` | internal/team/tasks.go:175-205 | Every renewal in the life of a claim carried its token and was within the lease of the stamp before it |
| `TaskRuns.ClaimDisplacesOnlyExpired` | internal/team/tasks.go:119-173 | A claim that displaces a holder was decided after that holder's lease ran out |
| `TaskRuns.TokenEndsTaskAtMostOnce` | internal/team/tasks.go:207-303 | With distinct tokens, a token completes, fails or releases its task at most once, and no later call with it succeeds |
| `TaskRuns.FencedForever` | internal/team/tasks.go:175-303 | Under a monotone clock a token that has once been refused is refused from then on |
| `TaskRuns.WritesRaiseVersion` | internal/team/tasks.go:119-332 | Each write to a stored record raises its version by one, an accepted create starts it over at 1, and no other call changes it |
| `TaskRuns.VersionsNeverFall` | internal/team/tasks.go:119-332 | Until its id is created again, a task's version never falls, its dependencies never change and completed is permanent |
| `TaskRuns.VersionCountsWrites` | internal/team/tasks.go:119-332 | In every reachable store a version is one more than the number of writes since the last accepted create |
| `TaskRuns.SameVersionIff` | internal/team/tasks.go:119-173 | In every run two successful claims of a task saw the same version if and only if it had been written equally often since it was created |
| `TaskRuns.CompletedIff` | internal/team/tasks.go:207-238 | In every reachable store a task is completed if and only if a call completed it since its last creation |
| `TaskRuns.OneClaimPerVersion` | internal/team/tasks.go:119-173 | Unless the task itself is created between two successful claims of it, the later one saw a strictly later version |
| `TaskRuns.RecreateReusesVersions` | internal/team/tasks.go:48-68 | A run in which a task is created again and two claims win with the same version |
| `TaskRuns.ClaimSucceedsIff` | internal/team/tasks.go:119-173 | In every run a claim succeeds if and only if the task was created, the expected version is one more than the writes since, the task is pending or its last stamp has expired, and every dependency is completed |
| `TaskRuns.ClaimIsRefusedFor` | internal/team/tasks.go:119-173 | A refused claim names the first reason in order: not found, version conflict, not claimable, dependency blocked |
| `TaskRuns.LastWriteDecides` | internal/team/tasks.go:48-332 | In every run the status of a task is the one that the last write but renewals leaves: pending after a create, release, reset or recovery, in progress after a claim, completed or failed after the call that says so, which also gives the result |
| `TaskRuns.ResultComesFromCall` | internal/team/tasks.go:207-271 | A stored result is empty or was given by an accepted completion or failure of that task |
| `TaskRuns.StoredIffCreated` | internal/team/tasks.go:48-68 | A task is stored if and only if it has been created |
| `TaskRuns.DependenciesAreCreated` | internal/team/tasks.go:48-68 | The dependencies of a task are those of its last accepted create |
| `TaskRuns.CreateSucceedsIff` | internal/team/tasks.go:48-68 | A create is refused exactly for an empty id |
| `TaskRuns.OtherOutcomes` | internal/team/tasks.go:175-332 | A token call is refused as not found exactly for an unknown id and as an invalid claim otherwise; a reset reports nothing to do exactly for a task that is not failed |
| `TaskRuns.RecoveryReleasesIff` | internal/team/recovery.go:85-142 | In every run, recovery changes the record of a task if and only if a call holds it, that call's worker is not alive, and the last stamp is still within its lease; the record then is pending, unclaimed and one version higher |
| `TaskRegistries.TaskRegistry.CreateTask` | internal/team/tasks.go:48-68 | Stores a new pending record, overwriting any record of that id; an empty id is refused |
| `TaskRegistries.TaskRegistry.ListTasks` | internal/team/tasks.go:87-117 | Lists every record exactly once, with lease expiry applied and nothing written |
| `TaskRegistries.TaskRegistry.DependenciesBlock` | internal/team/tasks.go:363-388 | True exactly when some dependency is missing or not completed |
| `TaskRegistries.TaskRegistry.ClaimTask` | internal/team/tasks.go:119-173 | Refines the compare-and-set claim, with its four refusals: same outcome and same new store as the atomic step that the fencing theorems are about |
| `TaskRegistries.TaskRegistry.RenewLease` | internal/team/tasks.go:175-205 | Refines the renewal (token and lease checked before the new stamp): same outcome and same new store as the atomic step that the fencing theorems are about |
| `TaskRegistries.TaskRegistry.RenewWhileExecuting` | internal/team/coordinator.go:696-723 | The renewal loop succeeds for exactly the ticks before the first one that comes too late, and leaves the record with the last stamp and a version raised once per renewal |
| `TaskRegistries.TaskRegistry.CompleteTask` | internal/team/tasks.go:207-238 | Refines the completion: same outcome and same new store as the atomic step that the fencing theorems are about |
| `TaskRegistries.TaskRegistry.FailTask` | internal/team/tasks.go:240-271 | Refines the failure: same outcome and same new store as the atomic step that the fencing theorems are about |
| `TaskRegistries.TaskRegistry.ReleaseTask` | internal/team/tasks.go:273-303 | Refines the release: same outcome and same new store as the atomic step that the fencing theorems are about |
| `TaskRegistries.TaskRegistry.ResetFailedTask` | internal/team/tasks.go:305-332 | Puts a failed task back to pending, leaves any other alone and says which it did |
| `TaskRegistries.TaskRegistry.ClaimNextTask` | internal/team/tasks.go:334-361 | Claims a ready task, or reports none exactly when every pending task is blocked |
| `TaskRegistries.TaskRegistry.RecoverOrphans` | internal/team/recovery.go:115-142 | Gives up exactly the live claims of workers without a heartbeat: per task, exactly when it is in progress under a worker that is not alive and within its lease, it becomes pending, unclaimed and one version higher |
| `TaskDependencies.DependenciesCompleteFirst` | internal/team/tasks.go:132-173 | In every run a task that is not pending was claimed when all its dependencies were completed, and has not been created since |
| `TaskDependencies.DependenciesHoldIff` | internal/team/tasks.go:363-388 | All its dependencies are completed now if and only if each one created again after that claim has been completed again since |
| `TaskDependencies.RecreateUndoesDependency` | internal/team/tasks.go:48-68 | A run that leaves a task in progress over a pending dependency |
| `TaskDependencies.KnotStaysPending` | internal/team/tasks.go:363-388 | Tasks that are only ever created to depend on one of the same set stay pending throughout every run, however often they are created |
| `TaskDependencies.CyclicOrDanglingNeverRuns` | internal/team/tasks.go:363-388 | No task from which dependencies lead around a cycle or to an id never created ever leaves pending, in any run |
| `TaskDependencies.StoredPathNeverRuns` | internal/team/tasks.go:363-388 | The same read off the final store, for tasks created once |
| `TaskDependencies.AcyclicHasMinimum` | internal/team/tasks.go:363-388 | In an acyclic store every nonempty set of tasks has a member that depends on none of them |
| `TaskDependencies.NoDeadlock` | internal/team/tasks.go:334-395 | With stored acyclic dependencies, no failed task and no live lease, some task is claimable if and only if some task is not completed |
| `TaskDependencies.NothingReadyLeavesFailures` | internal/team/tasks.go:334-395 | When no task is ready and no lease is live, every task is completed except those from which dependencies lead to a failed one |
| `TaskDependencies.UnsettledIffHeldUp` | internal/team/tasks.go:363-388 | In that situation some task is neither completed nor failed if and only if a failed task holds up one that depends on it |
| `Phases.TransitionLowersMeasure` | internal/team/phases.go:50-89 | Every accepted transition strictly lowers a natural-number measure and follows an allowed edge |
| `Phases.HistoryIsBoundedChain` | internal/team/phases.go:50-89 | After any requests the history is a connected chain of allowed edges, counts the entries into fix, keeps within the loop bound k and has at most 3k + 4 entries |
| `Phases.ChainIsConnected` | internal/team/phases.go:50-89 | Each entry of a chain is an allowed edge that leaves the phase the entry before it led to |
| `Phases.FailsOnlyAfterExec` | internal/types/team.go:34-49 | No history of any requests contains a transition to failed out of plan, prd or exec |
| `Phases.BoundIsTight` | internal/types/team.go:34-49 | For every k some requests reach exactly 3k + 4 entries |
| `Phases.NextRequest` | internal/team/phases.go:50-89 | After any requests, one more is granted exactly along the listed edges; granted, it adds exactly its entry and counts a fix, or goes to failed beyond the bound; refused, it changes nothing |
| `Phases.CancelIsGranted` | internal/types/team.go:34-49 | From every phase that is not terminal a request for cancelled is granted, adds exactly that entry and leaves the fix count alone; a terminal phase is left as it was |
| `Phases.TerminalStays` | internal/team/phases.go:50-89 | Once a phase is terminal no further requests change anything |
| `Phases.PhaseMachine.Transition` | internal/team/phases.go:50-89 | Grants a request exactly along the listed edges, with the new phase, fix count and entry stated outright; a refusal changes nothing |
| `Coordinators.Coordinator.AllTasksTerminal` | internal/team/phases.go:110-124 | True exactly when every stored task is completed or failed, whatever leases have expired |
| `Coordinators.Coordinator.AllTasksCompleted` | internal/team/phases.go:127-141 | True exactly when every stored task is completed |
| `Coordinators.Coordinator.CheckGovernance` | internal/team/governance.go:58-89 | Permits exactly what every rule permits in a live context, and names the first rule violated |
| `Coordinators.Coordinator.CheckClaimGovernance` | internal/team/governance.go:58-179 | A claim is permitted exactly in a live context with fewer than three active tasks of the worker and no more active workers than configured; otherwise the error names the rule |
| `Coordinators.Coordinator.CheckTransitionGovernance` | internal/team/coordinator.go:591-606 | Passes exactly when all tasks are terminal and the context is live |
| `Coordinators.Coordinator.RunWorkerPhase` | internal/team/coordinator.go:224-261 | Succeeds exactly when the phase may move on and no task was ready, or one was executed with its lease kept; says what became of that task in every case, and that no other changed |
| `Coordinators.Coordinator.RunExecPhase` | internal/team/coordinator.go:263-322 | After any calls of the workers it moves to verify exactly when all tasks are terminal and the context is live |
| `Coordinators.Coordinator.RunVerifyPhase` | internal/team/coordinator.go:324-369 | Succeeds exactly when the gate lets it judge the tasks, or the execution failed; leads to complete exactly when every task is completed, otherwise to fix, or to failed when no loop is left |
| `Coordinators.Coordinator.ResetFailedTasks` | internal/team/coordinator.go:376-393 | Resets every failed task and no other, and says whether there was one |
| `Coordinators.Coordinator.RunFixPhase` | internal/team/coordinator.go:371-404 | Succeeds exactly when the context is live and a task was failed or all are terminal; resets the failed tasks and goes back to exec, or to complete when there were none; a cancelled context leaves every task alone |
| `Coordinators.Coordinator.RunPhase` | internal/team/coordinator.go:204-222 | For every phase: exactly when the body succeeds, what it does to the tasks, the one phase it leads to, and complete only with all tasks completed |
| `Coordinators.Coordinator.Run` | internal/team/coordinator.go:147-202 | The loop ends within the measure of the starting phase and reaches complete only with all tasks completed; it passes through a trail of succeeding bodies and then is cancelled, is in a terminal phase (if and only if it succeeds), or has a failing body, after which it is in failed if and only if the context is live and the phase was verify or fix, and otherwise in that phase; a failing first task leaves it in plan, and when nothing goes wrong four bodies take it to complete; cancelled before a body, a team that was not in a terminal phase is in cancelled |
| `Coordinators.Coordinator.Coordinate` | internal/team/coordinator.go:167-202 | The loop on the tasks stored when it begins, with its trail and the exact way it ends |
| `Coordinators.Coordinator.TakeTurn` | internal/team/coordinator.go:167-202 | One turn ends the run, in the exact way the turn decides, or one body succeeds and the measure falls |
| `Coordinators.Coordinator.RunBody` | internal/team/coordinator.go:189-200 | A failing body leaves the team in failed exactly in a live context after verify or fix, and reports the cancellation if there was one |
| `CoordinatorModel.FirstFailureEndsInPlan` | internal/team/coordinator.go:189-200 | Every run that begins in plan with a ready task it fails to execute ends in plan with that error, or with the cancellation |
| `CoordinatorModel.SmoothRunCompletes` | internal/team/coordinator.go:167-222 | Every run that begins in plan and in which nothing goes wrong gets to complete in four bodies |
| `Coordinators.Coordinator.LeaveExec` | internal/team/coordinator.go:301-321 | Goes on to verify exactly when all tasks are terminal and the context is live |
| `Coordinators.Coordinator.WorkerLoop` | internal/team/coordinator.go:406-489 | A lone worker with any results of its executions ends, and when nothing is ready any more every task is completed except those from which dependencies lead to a failed one; that is how it ends, after one execution per task at most, if no lease is lost; all tasks are completed if no execution fails |
| `Coordinators.Coordinator.WorkerTurn` | internal/team/coordinator.go:446-487 | One turn claims a ready task and completes it, fails it, or leaves it claimed if its lease was lost, changing no other, or finds nothing ready |
| `Coordinators.Coordinator.RunExecWithOneWorker` | internal/team/coordinator.go:263-322 | With a worker that has gone through everything it could, exec is left if and only if no failed task holds up one that depends on it |
| `Coordinators.Coordinator.Prepare` | internal/team/coordinator.go:153-161 | Recovers orphans and creates the given tasks; fails exactly when one has no id |
| `CoordinatorModel.PreparedIs` | internal/team/coordinator.go:153-161 | Created tasks are new and pending with the dependencies of their last entry; every other task is as it was, except that a live claim of a worker that is not alive has been given up |
| `Coordinators.Coordinator.EndExecution` | internal/team/coordinator.go:240-258 | An executed task is completed exactly when its lease was kept; a failed execution is recorded as far as the lease allows; nothing else changes |
| `CoordinatorModel.AttemptLeaves` | internal/team/coordinator.go:240-258 | The record an execution leaves, in every case: completed with its result or failed, two versions and one per renewal higher, if the final call is within the lease of the last stamp; otherwise still claimed with that stamp |
| `Coordinators.FailingTaskLeavesPlan` | internal/team/coordinator.go:189-200 | A new team whose only task fails to execute ends with that error in plan |
| `Coordinators.OneTaskTeamCompletes` | internal/team/coordinator.go:167-202 | A new team with one task whose executions succeed ends without error in complete |
| `Coordinators.FailedTaskHoldsUpExec` | internal/team/coordinator.go:263-322 | A team whose first of two dependent tasks fails stays in exec with an error |
| `IssueRunRuns.HandleKeepsCoherent` | cloud/src/do/issue-run.ts:177-288 | Every request and every alarm, with any outcome of its outbound calls, keeps status, lease fields, retention, alarm, event log and row coupled |
| `IssueRunRuns.AlwaysCoherent` | cloud/src/do/issue-run.ts:177-288 | The coupling holds after every sequence of requests and alarms |
| `IssueRunRuns.FreedOnlyBy` | cloud/src/do/issue-run.ts:249-288 | A run is freed only by a decline, a revocation or an expired lease, or by pruning after its retention time |
| `IssueRunRuns.DispatchesAreSeparated` | cloud/src/do/issue-run.ts:327-358 | Between two accepted dispatches the run was taken back from the first worker, or pruned in time |
| `IssueRunRuns.ActiveSinceDispatch` | cloud/src/do/issue-run.ts:327-358 | An active run was given to its holder by the latest accepted dispatch, with the lease length asked for or the default, and has been active ever since |
| `IssueRunRuns.LeaseFollowsContact` | cloud/src/do/issue-run.ts:425-465 | The lease of a running run expires exactly one lease length after the latest accepted acknowledgement or heartbeat |
| `IssueRunRuns.CompletionIsFromHolder` | cloud/src/do/issue-run.ts:540-580 | An accepted completion comes from the current holder strictly before expiry and leaves a row with the same status |
| `IssueRunRuns.TerminalIsForever` | cloud/src/do/issue-run.ts:467-482 | A terminal status and its end time never change; the record can only be pruned, and not before 24 hours |
| `IssueRunRuns.AlarmEnforcesLease` | cloud/src/do/issue-run.ts:249-288 | A running run always has an alarm at its expiry, which takes it back; an early alarm changes nothing |
| `IssueRunRuns.OpenRunHasRowIff` | cloud/src/do/issue-run.ts:540-610 | A run that has not ended has a row if and only if there was one before its record was made or an announcement aborted after persisting since |
| `IssueRunRuns.LostAnnouncement` | cloud/src/do/issue-run.ts:560-580 | After a completion whose announcement fails, the alarm at the end of the lease queues the run again while its row has the completed status |
| `IssueRunRuns.QueuedWithSucceededRow` | cloud/src/do/issue-run.ts:560-580 | A four-request history that ends so |
| `IssueRunRuns.HistoryOf` | cloud/src/do/issue-run.ts:177-288 | Every sequence of well-formed requests and alarms has a history |
| `IssueRunCalls.DispatchAcceptedIff` | cloud/src/do/issue-run.ts:327-358 | A dispatch is accepted exactly when there is no record or it is queued; it names holder and lease length, sets kind and hash if it gives them, and leaves alarm, log and rows alone |
| `IssueRunCalls.AckAcceptedIff` | cloud/src/do/issue-run.ts:195-213 | An acknowledgement that accepts is granted exactly when the run is dispatched and its worker is not another one than the latest dispatch named, and the run then is running; one that declines exactly when the run is dispatched or running, and it then is queued |
| `IssueRunCalls.HeartbeatAcceptedIff` | cloud/src/do/issue-run.ts:425-465 | A heartbeat is accepted if and only if the run is running, its worker is the one that the latest accepted dispatch named, if it named one, and it comes strictly before one lease length after the latest accepted contact; it then moves expiry and alarm and nothing else |
| `IssueRunCalls.ContactIsFromHolder` | cloud/src/do/issue-run.ts:425-465 | Every contact from which a lease runs came from the worker that the latest accepted dispatch named, or, for an acknowledgement, from nobody else |
| `IssueRunCalls.BatchStoredIff` | cloud/src/do/issue-run.ts:467-538 | A batch of events is stored exactly when the run is running, its worker is not another one than the latest dispatch named, the batch is valid and the metadata are known |
| `IssueRunCalls.LogIsStoredBatches` | cloud/src/do/issue-run.ts:467-538 | The event log of an open run is the concatenation, in order, of the batches stored since its record was made |
| `IssueRunCalls.LateBatchIsCounted` | cloud/src/do/issue-run.ts:757-763 | A batch that comes after the end and within the retention time is only counted |
| `IssueRunCalls.CompletionAcceptedIff` | cloud/src/do/issue-run.ts:540-580 | A completion is accepted exactly when it is from the holder, strictly in time, complete in its metadata and both outbound calls go through; the record, the row with all its columns, the alarm and the log after it are stated |
| `IssueRunCalls.CancelAcceptedIff` | cloud/src/do/issue-run.ts:581-610 | A cancellation is accepted exactly when the run is running with complete metadata, a configuration hash is known and all outbound calls go through; the run then is cancelled, with its row |
| `IssueRunCalls.RevokeAcceptedIff` | cloud/src/do/issue-run.ts:612-628 | A revocation is accepted exactly when the run is dispatched or running and the worker could be told; the run then is queued without a lease |
| `IssueRunCalls.PrunedIff` | cloud/src/do/issue-run.ts:249-288 | A terminal record is deleted, with log and alarm, exactly by an alarm or a late batch from 24 hours after its end on |
| `IssueRunCalls.StaleAlarmIsCleared` | cloud/src/do/issue-run.ts:249-288 | An alarm that finds the run queued, dispatched or unknown is cleared and does nothing else |
| `IssueRunCalls.StateCreatesQueued` | cloud/src/do/issue-run.ts:290-309 | Asking for the state of an unknown run creates a queued record |
| `IssueRunCalls.StartedWhenTakenOn` | cloud/src/do/issue-run.ts:380-424 | A run's start time is that of the acknowledgement by which a worker first took it on |
| `IssueRunCalls.CreatedWhenMissing` | cloud/src/do/issue-run.ts:290-309 | A record's creation time is that of the request that found none |
| `IssueRunCalls.ChangesAreDated` | cloud/src/do/issue-run.ts:380-424 | Every change to a record carries the time of its request |
| `IssueRunCalls.MetadataFromCreation` | cloud/src/do/issue-run.ts:360-378 | Run, team and issue of a record are those of the request that made it |
| `IssueRunCalls.KindFromDispatch` | cloud/src/do/issue-run.ts:327-358 | Worker kind and configuration hash of an active run are those of the latest dispatch, if it gave them |
| `IssueRunCalls.HeartbeatIsRefusedFor` | cloud/src/do/issue-run.ts:425-465 | A refused heartbeat names the first reason in order: unknown, terminal, not running, from another worker, expired |
| `IssueRunCalls.AckIsRefusedFor` | cloud/src/do/issue-run.ts:195-213 | The same for acknowledgements |
| `IssueRunCalls.BatchIsRefusedFor` | cloud/src/do/issue-run.ts:467-538 | The same for batches of events |
| `IssueRunCalls.CompletionIsRefusedFor` | cloud/src/do/issue-run.ts:540-580 | The same for completions |
| `IssueRunCalls.CancelIsRefusedFor` | cloud/src/do/issue-run.ts:581-610 | The same for cancellations |
| `IssueRunCalls.RevokeIsRefusedFor` | cloud/src/do/issue-run.ts:612-628 | The same for revocations |
| `IssueRuns.IssueRun.EnsureRecord` | cloud/src/do/issue-run.ts:290-309 | Reads the record, creating a queued one if there is none |
| `IssueRuns.IssueRun.TransitionRecord` | cloud/src/do/issue-run.ts:380-424 | Moves the record along an allowed edge with its alarm and event log, or leaves everything alone |
| `IssueRuns.IssueRun.AcquireDispatch` | cloud/src/do/issue-run.ts:327-358 | Refines the dispatch: same reply, record, event log, alarm and rows as the atomic step that the trace theorems are about |
| `IssueRuns.IssueRun.HandleAcknowledgement` | cloud/src/do/issue-run.ts:195-213 | Refines the acknowledgement: same reply, record, event log, alarm and rows as the atomic step that the trace theorems are about |
| `IssueRuns.IssueRun.HandleHeartbeatRequest` | cloud/src/do/issue-run.ts:425-465 | Refines the heartbeat: same reply, record, event log, alarm and rows as the atomic step that the trace theorems are about |
| `IssueRuns.IssueRun.HandleEventBatch` | cloud/src/do/issue-run.ts:467-538 | Refines the event batch, with late events and pruning: same reply, record, event log, alarm and rows as the atomic step that the trace theorems are about |
| `IssueRuns.IssueRun.HandleCompletion` | cloud/src/do/issue-run.ts:540-580 | Refines the completion: same reply, record, event log, alarm and rows as the atomic step that the trace theorems are about |
| `IssueRuns.IssueRun.HandleCancellation` | cloud/src/do/issue-run.ts:581-610 | Refines the cancellation: same reply, record, event log, alarm and rows as the atomic step that the trace theorems are about |
| `IssueRuns.IssueRun.HandleManualRevoke` | cloud/src/do/issue-run.ts:612-628 | Refines the revocation: same reply, record, event log, alarm and rows as the atomic step that the trace theorems are about |
| `IssueRuns.IssueRun.PruneTerminalRetention` | cloud/src/do/issue-run.ts:765-770 | Deletes record, event log and alarm |
| `IssueRuns.IssueRun.OnAlarm` | cloud/src/do/issue-run.ts:249-288 | Refines the alarm: same reply, record, event log, alarm and rows as the atomic step that the trace theorems are about |
| `OrchestratorRuns.AlwaysSound` | internal/orchestrator/orchestrator.go:268-386 | In every reachable state running, queued and paused are pairwise disjoint, the queue has one entry per issue at most, the running count is right and within the limit, and the issue cache is bounded and consistent |
| `OrchestratorRuns.SoundWithinSteps` | internal/orchestrator/orchestrator.go:268-386 | The invariant also holds in every state observable inside a pass, between two mutex-protected sections |
| `OrchestratorRuns.StepKeepsSound` | internal/orchestrator/orchestrator_runtime.go:80-208 | Every section of the event loop, and every interleaved stop, keeps that invariant and unpauses nothing |
| `OrchestratorRuns.PausedNeverRunsAgain` | internal/orchestrator/orchestrator_runtime.go:646-663 | An issue once paused is never running and never queued again |
| `OrchestratorRuns.RetryPassConserves` | internal/orchestrator/orchestrator.go:268-315 | After a retry pass, under any mix of failures and stops, entries not due are queued as before, and a due entry is queued as the same or next attempt if its turn started nothing, running as the same attempt if it did, and gone exactly if that run was stopped in the same turn or a later one |
| `OrchestratorRuns.EntryFate` | internal/orchestrator/orchestrator.go:268-315 | The same for each due entry, over any number of turns |
| `OrchestratorRuns.LaunchedAtIff` | internal/orchestrator/orchestrator.go:268-315 | A turn starts a run exactly when there is a free slot, the launch succeeds and the issue is in the tracker's list or the cache |
| `OrchestratorRuns.RetryPassKeepsUnstopped` | internal/orchestrator/orchestrator.go:268-315 | A queued issue that no stop names from its own turn on is running or queued, its attempt number not decreased |
| `OrchestratorRuns.DispatchKeepsSound` | internal/orchestrator/orchestrator.go:542-683 | Dispatching an unmanaged issue leaves it running or queued and disturbs no other issue |
| `OrchestratorRuns.UpsertReplaces` | internal/orchestrator/orchestrator_runtime.go:433-441 | An upsert leaves exactly one entry for its issue, the new one, and every other issue's alone |
| `OrchestratorRuns.CachedKeepsSound` | internal/orchestrator/orchestrator.go:857-869 | Caching keeps the cache within its bound, its order consistent, and holds the new issue |
| `OrchestratorRuns.SuccessIffSignalled` | internal/orchestrator/orchestrator_runtime.go:210-260 | A managed run counts as a success exactly when it ended without error and reported no event, or is streaming and its last event passes the success-signal test |
| `OrchestratorRuns.SignalSurvives` | internal/orchestrator/orchestrator_runtime.go:262-282 | The signal taken from an event passes the test exactly when the event does |
| `OrchestratorRuns.ReachableSuccessIff` | internal/orchestrator/orchestrator_runtime.go:80-208 | In every reachable state a finished run is not queued again exactly in that case |
| `OrchestratorCalls.FailureIsRetriedLater` | internal/orchestrator/orchestrator_runtime.go:284-337 | A run that ends without success leaves a queue entry for its next attempt, due after min(10000 * 2^(attempt-1), max) give or take a tenth, and is managed in no other way |
| `OrchestratorCalls.SuccessIsReleasedOrPaused` | internal/orchestrator/orchestrator_runtime.go:80-208 | A success is paused exactly if its branch is unchanged or cannot be checked, and otherwise released; it is queued in neither case |
| `OrchestratorCalls.FailedDispatchIsQueued` | internal/orchestrator/orchestrator.go:542-683 | A dispatch that cannot start the agent is queued as the next attempt after the failure delay, one that fails before that as the same attempt after min(1000, max) |
| `OrchestratorCalls.UnknownIsQueued` | internal/orchestrator/orchestrator.go:268-315 | A due entry of an unknown issue is queued as the same attempt after min(1000, max); without a free slot it goes to the end of the queue as it is |
| `OrchestratorCalls.DueEntryIsStarted` | internal/orchestrator/orchestrator.go:268-315 | A due entry with a free slot, a known issue and a launch that succeeds is started as its attempt, from the tracker's record or else the cached one, with nothing counted and a new serial number |
| `OrchestratorCalls.EligibleIsStarted` | internal/orchestrator/orchestrator.go:542-683 | An unclaimed issue that nothing open blocks and that is not implemented already is started as its first attempt, given a slot |
| `OrchestratorCalls.PassTakesEligible` | internal/orchestrator/orchestrator.go:317-386 | What a new-issues pass manages that was not managed before was eligible at its turn |
| `OrchestratorCalls.PassTakesAllEligible` | internal/orchestrator/orchestrator.go:317-386 | Without interleaved stops, a pass that ends with a slot to spare manages every eligible issue of its listing |
| `OrchestratorCalls.DueWhenTimeHasCome` | internal/orchestrator/orchestrator.go:268-315 | An entry is taken off the queue exactly when its time has come |
| `OrchestratorCalls.EarlyEntryStays` | internal/orchestrator/orchestrator.go:268-315 | An entry whose time has not come, and every entry when no slot is free, stays in the queue as it is; any other is handled |
| `OrchestratorCalls.OldestIsEvicted` | internal/orchestrator/orchestrator.go:857-869 | A new issue drops the one held longest exactly if the cache holds 1000; every other stays as it was, and known issues are updated in place |
| `OrchestratorCalls.PollIsRemembered` | internal/orchestrator/orchestrator.go:210-249 | A poll caches the listed issues one after the other and manages none |
| `OrchestratorCalls.EventIsRecorded` | internal/orchestrator/orchestrator_runtime.go:27-78 | An event moves its run on to streaming, or to failed with its error for the three failure events, and touches no other run, queue entry or pause |
| `OrchestratorCalls.StopIsForItsRun` | internal/orchestrator/orchestrator_runtime.go:514-559 | A stop removes the run it is about and no later run of the same issue |
| `OrchestratorCalls.ShutdownStopsAll` | internal/orchestrator/orchestrator_runtime.go:665-708 | A shutdown stops every run and keeps queue and pauses |
| `OrchestratorCalls.OverdueIsMarked` | internal/orchestrator/orchestrator_runtime.go:449-512 | Reconciliation drops the given runs, marks the overdue active ones with the phase and its message, and leaves the others alone |
| `OrchestratorCalls.SignalIff` | internal/orchestrator/orchestrator_runtime.go:262-282 | A message signals success exactly if, trimmed and in lower case, it is one of four event names or contains both completed and success |
| `OrchestratorTokens.TokensAreConserved` | internal/orchestrator/orchestrator_runtime.go:27-78 | At every point each token total equals the sum, over every run ever started, of the greatest count reported while it was managed |
| `OrchestratorTokens.StepKeepsCounts` | internal/orchestrator/orchestrator.go:640-654 | Only agent events count tokens; other steps keep serials distinct and start runs at zero |
| `Orchestrators.Orchestrator.PutIssueCache` | internal/orchestrator/orchestrator.go:857-869 | Refines the cache update, evicting the oldest: same new state as the step that the invariants and the token ledger are about |
| `Orchestrators.Orchestrator.UpsertBackoff` | internal/orchestrator/orchestrator_runtime.go:433-441 | Refines the queue update: same new state as the step that the invariants and the token ledger are about |
| `Orchestrators.Orchestrator.EnqueueContinuation` | internal/orchestrator/orchestrator_runtime.go:405-431 | Queues the same attempt after the continuation delay |
| `Orchestrators.Orchestrator.EnqueueRetry` | internal/orchestrator/orchestrator_runtime.go:284-337 | Queues the next attempt after the failure delay, as the step that the delay theorems are about |
| `Orchestrators.Orchestrator.DispatchIssue` | internal/orchestrator/orchestrator.go:542-683 | Refines the dispatch, for every point at which it may fail: same new state as the step that the invariants and the token ledger are about |
| `Orchestrators.Orchestrator.DispatchReadyBackoff` | internal/orchestrator/orchestrator.go:268-315 | Refines the retry pass: same new state as the step that the invariants and the token ledger are about |
| `Orchestrators.Orchestrator.DispatchUnclaimedIssues` | internal/orchestrator/orchestrator.go:317-386 | Refines the new-issues pass: same new state as the step that the invariants and the token ledger are about |
| `Orchestrators.Orchestrator.IsManagedIssue` | internal/orchestrator/orchestrator_runtime.go:646-663 | True exactly when the issue is running, paused or queued |
| `Orchestrators.Orchestrator.HandleAgentEvent` | internal/orchestrator/orchestrator_runtime.go:27-78 | Refines the agent event: same new state as the step that the invariants and the token ledger are about |
| `Orchestrators.Orchestrator.CompleteRun` | internal/orchestrator/orchestrator_runtime.go:80-208 | Refines the completion (released, paused or retried): same new state as the step that the invariants and the token ledger are about |
| `Orchestrators.Orchestrator.FinishStop` | internal/orchestrator/orchestrator_runtime.go:514-559 | Removes a stopped run only while it is still the one being stopped |
| `Orchestrators.UnresolvedBlockers` | internal/orchestrator/orchestrator.go:529-540 | The open blockers in order, each as often as it is named; none exactly when no blocker is open |
| `Orchestrators.OpenAmongCounts` | internal/orchestrator/orchestrator.go:529-540 | Each open blocker occurs as often as in the list, and a closed one not at all |
| `Backoff.CalculateFailureBackoff` | internal/orchestrator/state.go:202-220 | The doubling loop gives min(10000 * 2^(attempt-1), maxMs) and no intermediate value exceeds max(10000, maxMs) |
| `Backoff.DelayIsBounded` | internal/orchestrator/state.go:88-123 | For every seed the delay lies in [min(1000, maxMs), maxMs] and within a tenth of its base |
| `Backoff.DelaysIncrease` | internal/orchestrator/state.go:88-123 | Delays strictly increase while the next doubling is uncapped, whatever the jitter |
| `Backoff.EveryDelayOccurs` | internal/orchestrator/state.go:88-123 | Every delay within a tenth of the base and within [min(1000, maxMs), maxMs] is the delay for some seed |
| `Allocation.LoadsStayBalanced` | internal/team/allocation.go:106-113 | For every worker and task list no two loads differ by more than 8, nor by more than 1 when no task has a role |
| `Allocation.BoundIsTight` | internal/team/allocation.go:48-68 | A difference of 8 does occur |
| `Allocation.ChoiceIgnoresOrder` | internal/team/allocation.go:70-104 | The owner is determined by the workers as a collection; their order does not matter |
| `Allocation.ChosenIsNotFarAhead` | internal/team/allocation.go:48-68 | The chosen worker is at most seven assignments ahead of any other, and not ahead for a task without a role |
| `Allocation.SuitedIsChosenIff` | internal/team/allocation.go:48-104 | Between two workers, by how many assignments the better suited may be ahead and still be chosen: 7, 4 or 2 for both roles against none, the effective one or the primary one, 4 for the primary role against none and 1 against the effective one, 2 for the effective role against none |
| `Allocation.SuitedIsChosenForBlockedIff` | internal/team/allocation.go:48-104 | For a task with blockers these are 5, 3 and 2 against an unsuited worker |
| `Allocation.EquallySuitedByLoad` | internal/team/allocation.go:70-104 | Equally suited workers are told apart by load and then by name |
| `Allocation.IdleGeneralistIsChosenIff` | internal/team/allocation.go:48-104 | An idle worker without a primary role is preferred to an unsuited one always, and to a suited one exactly from 2, 4 or 7 assignments of that one on |
| `Allocation.ChooseTaskOwner` | internal/team/allocation.go:70-104 | Names a worker whose score, load and name no other worker beats, or says there are no workers |
| `Allocation.AllocateTasksToWorkers` | internal/team/allocation.go:106-113 | Each task goes to the choice made in view of the assignments before it |
| `Allocation.ScoreWorker` | internal/team/allocation.go:48-68 | The score of the model: role bonuses minus load penalties |
| `Allocation.CountAssignments` | internal/team/allocation.go:207-215 | The number of assignments to a worker |
| `Timelines.Store.LoadSnapshot` | internal/timeline/store.go:200-226 | The snapshot is the fold of the log |
| `Timelines.Store.Append` | internal/timeline/store.go:100-143 | Appends a record unless it is a node upsert that repeats the stored hash |
| `Timelines.Store.AppendNodeUpsert` | internal/timeline/store.go:41-48 | A blank hash is filled in before deduplication |
| `Timelines.DeduplicationAgrees` | internal/timeline/store.go:100-143 | For every sequence of records the deduplicated log has the same runs and sync states, the same node keys and the same hashes as the full one |
| `Timelines.SnapshotHasLastHash` | internal/timeline/store.go:281-300 | Each node key has the hash of its last upsert |
| `Timelines.SnapshotKeepsFirstOfLastHash` | internal/timeline/store.go:100-143 | The snapshot's node is exactly the first upsert that carried the last hash |
| `Timelines.SnapshotHoldsLast` | internal/timeline/store.go:281-300 | The snapshot of a log holds a record if and only if it is in the log and no later record has its kind and key |
| `Timelines.StoreHoldsLast` | internal/timeline/store.go:100-143 | For runs and sync states the same holds of the records appended, whatever deduplication drops |
| `Timelines.HashIsFilledIn` | internal/timeline/store.go:41-48 | A node keeps its own hash unless that is white space, and then has the computed one; nothing else of it changes |
| `Timelines.SyncableChangeIsLost` | internal/timeline/types.go:129-167 | After a node with a computed hash was upserted, an upsert that only changes the syncable flag leaves any log as it is |
| `Timelines.TurnSyncable` | internal/timeline/store.go:41-48 | A new node first upserted as not syncable and then as syncable stays not syncable in the snapshot |
| `TimelineSyncRuns.RootCommentIsCreatedOnce` | internal/timeline/linear_syncer.go:164-187 | Over any passes, answers, store failures and writes in between, no root comment is asked for again once one has landed for the run, and the runs known to have one are exactly those |
| `TimelineSyncRuns.KnownIffLanded` | internal/timeline/linear_syncer.go:164-187 | In every reachable world a run is known to have a root comment if and only if one has landed |
| `TimelineSyncRuns.ProcessNodeAsksIff` | internal/timeline/linear_syncer.go:164-187 | Moving over a node asks for its run's root comment if and only if the node is not skipped, none has landed, and no retry is pending |
| `TimelineSyncRuns.PassAsksForRootIff` | internal/timeline/linear_syncer.go:112-187 | The same for every node at which any pass from any reachable world arrives |
| `TimelineSyncRuns.UnlandedRootIsCreatedAgain` | internal/timeline/linear_syncer.go:164-187 | A root comment that was created but has not landed is created again by any such node |
| `TimelineSyncRuns.UnstoredRootIsCreatedAgain` | internal/timeline/linear_syncer.go:164-187 | An instance: while the store refuses every record, each pass creates the first node's root comment once more |
| `TimelineSyncRuns.IdlessRootIsCreatedTwice` | internal/timeline/linear_syncer.go:164-187 | Another instance: when root comments get no id, the first two nodes of one run get it two in a single pass |
| `TimelineSyncRuns.ExampleIsIdless` | internal/timeline/linear_syncer.go:164-187 | A timeline that meets the hypotheses of that instance |
| `TimelineSyncRuns.ExampleAsksForRoot` | internal/timeline/linear_syncer.go:164-187 | A timeline that meets the hypotheses of that instance |
| `TimelineSyncRuns.ProcessNodeCreatesIff` | internal/timeline/linear_syncer.go:189-216 | Moving over a node creates a comment for it if and only if it is not skipped, the pass gets past the root, and there is no comment it can update |
| `TimelineSyncRuns.PassCreatesCommentIff` | internal/timeline/linear_syncer.go:112-216 | The same for every node at which any pass arrives |
| `TimelineSyncRuns.RefusedUpdateForgetsComment` | internal/timeline/linear_syncer.go:233-248 | A refused update stores a failed state without a comment id |
| `TimelineSyncRuns.ForgottenCommentIsCreatedAgain` | internal/timeline/linear_syncer.go:189-216 | A node in such a state gets another comment on its next visit, if and only if it need not wait and the pass gets past the root |
| `TimelineSyncRuns.RefusedUpdateIsCreatedAgain` | internal/timeline/linear_syncer.go:189-248 | In two passes over a node whose comment is out of date, the first with its update refused, the second creates another comment |
| `TimelineSyncRuns.ExampleIsOutdated` | internal/timeline/linear_syncer.go:189-216 | A timeline that meets the hypotheses of that |
| `TimelineSyncRuns.OnePassSettles` | internal/timeline/linear_syncer.go:112-162 | With node comments accepted and no node to be retried later, one pass syncs every syncable node, whatever happens to root comments |
| `TimelineSyncRuns.NextPassIsQuiet` | internal/timeline/linear_syncer.go:112-162 | After that a pass in any surroundings makes no writer call and changes nothing |
| `TimelineSyncRuns.PassIsQuietIff` | internal/timeline/linear_syncer.go:112-162 | A pass makes no writer call if and only if every node is unsyncable, synced with its present hash, or to be retried later |
| `TimelineSyncRuns.SyncNodeEffect` | internal/timeline/linear_syncer.go:189-248 | Syncing a node makes at least one call, none for a run's root, and stores the last answer as this node's state and nothing else |
| `TimelineSyncCalls.PassCallsAreInOrder` | internal/timeline/linear_syncer.go:112-216 | At every node of every pass from every reachable world: a call is made exactly if the node is syncable, not up to date and not to be retried later; each call is for this node or its run with the writer's answer; an update carries the comment id stored for the node; a reply is made in reply mode only and its parent is the id that the run's landed root call was answered with, or empty if none has landed; and in reply mode a top-level comment only follows an unsupported reply when the fallback is allowed |
| `TimelineSyncCalls.NodeCalls` | internal/timeline/linear_syncer.go:189-216 | The same for one node, from any state in which the stored root ids are those of the landed calls |
| `TimelineSyncCalls.AlwaysKnowsRoots` | internal/timeline/linear_syncer.go:164-187 | In every reachable world the root ids stored are exactly those that the landed root calls were answered with |
| `TimelineSyncCalls.RootIsAskedForIff` | internal/timeline/linear_syncer.go:164-187 | The root comment is asked for exactly if the node is not left alone, no root call of the run has landed, and its retry time, if any, has come |
| `TimelineSyncCalls.SyncNodeAdds` | internal/timeline/linear_syncer.go:189-216 | A node is updated exactly if it has a comment and a stored hash other than its own, and each of its calls but the last is one the writer does not support and that leads on to the next |
| `TimelineSyncCalls.RootAnswerIsStored` | internal/timeline/linear_syncer.go:164-187 | The answer to a root call is stored for its run with status, comment id and retry time, and a refused record stops the pass |
| `TimelineSyncCalls.LastAnswerIsStored` | internal/timeline/linear_syncer.go:218-248 | The answer to the last call for a node is stored for that node and no other, with hash, status, comment id and retry time |
| `Syncers.LinearSyncer.EnsureRoot` | internal/timeline/linear_syncer.go:164-187 | Refines the root step: same writer calls and same new log as the step that the pass theorems are about |
| `Syncers.LinearSyncer.SyncNode` | internal/timeline/linear_syncer.go:189-216 | Refines the node step (update, reply under the root, fallback): same writer calls and same new log as the step that the theorems on calls and passes are about |
| `Syncers.LinearSyncer.Mark` | internal/timeline/linear_syncer.go:218-248 | Stores a synced or failed state with the node's hash |
| `Syncers.LinearSyncer.ProcessIssue` | internal/timeline/linear_syncer.go:112-162 | Refines one pass over a listing of the snapshot's nodes: same writer calls and same new log as the step that the pass theorems are about |
| `Sse.Serve` | internal/web/sse.go:42-82 | The stream is the frames of the events numbered from 1, with keepalives in between |
| `Sse.Reader.Next` | internal/agent/opencode.go:79-148 | Refines the reader (one event, the rest of the input and the last id): same event, rest of input and last id as the function that the round trip is about |
| `SseRoundTrip.StreamReads` | internal/agent/opencode.go:79-148 | Any stream of one-line events and keepalives is read back event by event, in order, with its ids, and then ends |
| `SseRoundTrip.RoundTripIff` | internal/web/sse.go:104-112 | One-line events are received exactly as sent if and only if every name is nonempty and no name or data ends in a carriage return |
| `SseRoundTrip.FrameReads` | internal/web/sse.go:104-112 | Reading a frame gives its event and stops right behind it |
| `SseRoundTrip.KeepaliveReads` | internal/web/sse.go:59-62 | A keepalive between frames is not seen |
| `SseRoundTrip.DecimalReads` | internal/web/sse.go:104-112 | A written id reads back as its number |
| `SseRoundTrip.LinesRead` | internal/agent/opencode.go:79-148 | Several data lines read as one event whose data splits at line feeds into those lines; without a name it is a message with the last id, and the end of the input ends it too |
| `SseRoundTrip.JoinedLinesSplit` | internal/agent/opencode.go:79-148 | Joined lines can be taken apart again |
| `SseRoundTrip.IgnoredLineReads` | internal/agent/opencode.go:79-148 | Comments, fields of other names and ids with a NUL are passed over |
| `SseRoundTrip.IdLineReads` | internal/agent/opencode.go:79-148 | Any other id is taken for this event and the ones after it |
| `SseRoundTrip.FieldNameIff` | internal/agent/opencode.go:79-148 | A field has a name exactly if it is that name alone or begins with it and a colon |
| `SseRoundTrip.FieldValueIs` | internal/agent/opencode.go:79-148 | Its value starts behind the colon or one space after it |
| `SseRoundTrip.Receive` | internal/agent/opencode.go:610-620 | Calling the reader until the end gives all events of the stream |
| `ShellQuote.LaunchLine` | internal/tmux/bootstrap.go:72-77 | The shell splits the launch line into exactly the trimmed command and the arguments, whatever they contain; a blank command is refused |
| `ShellQuote.QuotedLexes` | internal/tmux/bootstrap.go:194-200 | A quoted value adds exactly the value to the word in which it is read |
| `ShellQuote.EscapedLexes` | internal/tmux/bootstrap.go:194-200 | Inside single quotes an escaped value and the closing quote add exactly the value |
| `ShellQuote.ChangeDirectoryReads` | internal/tmux/bootstrap.go:68-70 | The shell reads the directory line as cd and exactly the directory |
| `ShellQuote.ExportReads` | internal/tmux/bootstrap.go:155-175 | The shell reads an export line as the name and exactly the value |
| `FrontMatter.SplitFrontMatter` | internal/config/parser.go:76-114 | The Go splitter gives a split at the first fence line |
| `FrontMatter.SplitFrontMatterCloud` | cloud/src/config/parser.ts:112-153 | The TypeScript splitter gives a split at the first fence line |
| `FrontMatter.SplitBothWays` | cloud/src/config/parser.ts:112-153 | The two splitters agree on every document |
| `FrontMatter.SplitIsUnique` | internal/config/parser.go:76-114 | Every document has at most one split |
| `FrontMatter.DocumentReassembles` | internal/config/parser.go:76-114 | Opening, front matter, closing fence and prompt make up the document |
| `FrontMatter.OpensIff` | internal/config/parser.go:76-114 | A document has front matter exactly if it is three dashes or starts with them and an end of line |
| `FrontMatter.FenceIff` | internal/config/parser.go:76-114 | A fence line is exactly three dashes and any ends of line |
| `FrontMatter.RenderWorkflowConfig` | cloud/src/config/parser.ts:83-97 | Re-rendering replaces the prompt behind an unchanged head; unterminated front matter is an error |
| `FrontMatter.PromptIsRendered` | cloud/src/config/parser.ts:83-97 | The template is the prompt between its outer white space; a rendering that leaves it as it is leaves the prompt as it is, any other replaces the whole prompt and ends in a newline exactly if the prompt did |
| `FrontMatter.RenderingKeepsFrontMatterIff` | cloud/src/config/parser.ts:83-97 | The result splits into the same front matter and the new prompt if and only if the rendering maps empty to empty or the closing fence line ends in a newline |
| `FrontMatter.RenderingKeepsFrontMatter` | cloud/src/config/parser.ts:83-97 | So it does, on every terminated document, for every rendering that maps empty to empty, as Liquid does |

## Left out

- Files, locks, JSON and YAML, databases, HTTP, git, tmux and subprocesses: stores are maps or sequences,
  and each outside call is a parameter that says how it went.
- Timestamps that nothing decides by (created and updated times of tasks, comment URLs, error texts).
- Overflow of durations and 64-bit counters; the scanner's limit on the length of a line.
- How tokens are drawn and how hashes mix: tokens are arbitrary where nothing is said and distinct where a
  lemma asks for it, and the jitter seed and the content hash are arbitrary functions.
- The order in which tasks and timeline nodes are listed: any order that lists each once.
- Recovery is one step at startup; its heartbeat and dispatch-queue clean-up is not modelled, only the tasks.
- Interference with a coordinator's own task while it executes in plan, prd or verify: no other worker runs
  then. Renewals happen at any times; renewals by exec-phase workers are ordinary calls.
- The governance retries in the exec-phase workers' loop, and several such loops at once: `RunExecPhase` allows
  any calls in any order, chosen in view of the store, and `WorkerLoop` is the only worker of its team, which
  claims the next task without asking for an allocation.
- A context that is cancelled half-way through a phase body: a body sees one answer at all its checks.
- Orphaned-claim recovery and blocked-run release of the orchestrator, which change the tracker's records
  only; the stall and timeout tests that decide which runs a reconcile step marks or drops.
- A late done signal of an earlier attempt: a signal carries an issue id only, so nothing is claimed about
  which attempt it ends.
- HTTP details of issue runs: request parsing and validation, status codes, metrics, and the queue that
  archives events.
- Timeline keys joined by colons: keys are tuples, and the log of one issue is modelled on its own, so issue
  ids are left out of records.
- `SseRoundTrip.StreamReads`: names and data are one line each; the payloads are JSON, which escapes newlines.
- Case mapping outside ASCII in the success-signal test, beyond the two characters whose lower case is ASCII.
- Which events the dashboard filters out before writing them, and connection handling.
- How keys reach the shell through tmux, and expansions other than those that quoting prevents: a line with
  an unquoted special character has no reading in the model.
- Validation of YAML and of Liquid templates when a configuration is rendered: rendering is any function on
  strings.
- Rebalancing, mailboxes, ownership, dispatch queues, worktrees, pollers, tracker clients, the terminal and
  web interfaces and the command line: plumbing, or easy on their own.
