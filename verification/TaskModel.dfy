/** Team tasks and the steps of the lease protocol over them (internal/team/tasks.go,
    internal/team/recovery.go), as functions on the map of stored task records.

    A lease expires virtually: the expiry is computed when a record is read and is never
    written back.  Every operation reads the clock once to decide (`checkAt`) and, where it
    stamps a lease, once more afterwards (`stampAt`).
 */
module TaskModel {
  import opened Options

  type TaskId = string
  type WorkerId = string
  type Token = string

  datatype TaskStatus = Pending | InProgress | Completed | Failed

  datatype TaskClaim = TaskClaim(worker: WorkerId, token: Token, leasedAt: int)

  datatype TeamTask = TeamTask(
    id: TaskId,
    status: TaskStatus,
    dependsOn: seq<TaskId>,
    claim: Option<TaskClaim>,
    version: int,
    result: string)

  type TaskMap = map<TaskId, TeamTask>

  datatype TaskError = IdRequired | NotFound | VersionConflict | NotClaimable | DependencyBlocked | InvalidClaim

  /** What one call reports: it wrote something, it had nothing to do, or it was refused. */
  datatype Outcome = Done | NothingToDo | Rejected(error: TaskError)

  datatype Op =
    | Create(id: TaskId, dependsOn: seq<TaskId>)
    | Claim(id: TaskId, worker: WorkerId, expectedVersion: int, token: Token, checkAt: int, stampAt: int)
    | Renew(id: TaskId, token: Token, checkAt: int, stampAt: int)
    | Complete(id: TaskId, token: Token, result: string, checkAt: int)
    | Fail(id: TaskId, token: Token, result: string, checkAt: int)
    | Release(id: TaskId, token: Token, checkAt: int)
    | Reset(id: TaskId)
    | Recover(alive: set<WorkerId>, checkAt: int)
  {
    /** The operations that a worker authenticates with its claim token. */
    predicate UsesToken() {
      Renew? || Complete? || Fail? || Release?
    }
  }

  const NANOS_PER_SECOND := 1_000_000_000

  /** A reading `now` of the clock is still inside a lease stamped at `leasedAt`. */
  predicate InLease(leaseSeconds: int, leasedAt: int, now: int) {
    leaseSeconds <= 0 || now - leasedAt <= leaseSeconds * NANOS_PER_SECOND
  }

  predicate LeaseExpired(leaseSeconds: int, task: TeamTask, now: int) {
    task.status == InProgress && task.claim.Some? && !InLease(leaseSeconds, task.claim.value.leasedAt, now)
  }

  /** The record as a reader sees it. */
  function Effective(leaseSeconds: int, task: TeamTask, now: int): TeamTask {
    if LeaseExpired(leaseSeconds, task, now) then task.(status := Pending, claim := None) else task
  }

  predicate IsCompleted(tasks: TaskMap, id: TaskId) {
    id in tasks && tasks[id].status == Completed
  }

  predicate IsBlocked(tasks: TaskMap, dependsOn: seq<TaskId>) {
    exists i :: 0 <= i < |dependsOn| && !IsCompleted(tasks, dependsOn[i])
  }

  predicate IsOrphaned(leaseSeconds: int, task: TeamTask, alive: set<WorkerId>, now: int) {
    var seen := Effective(leaseSeconds, task, now);
    seen.status == InProgress && seen.claim.Some? && seen.claim.value.worker !in alive
  }

  function Claimed(task: TeamTask, worker: WorkerId, token: Token, stampAt: int): TeamTask {
    task.(status := InProgress, claim := Some(TaskClaim(worker, token, stampAt)), version := task.version + 1)
  }

  function Renewed(task: TeamTask, stampAt: int): TeamTask
    requires task.claim.Some?
  {
    task.(claim := Some(task.claim.value.(leasedAt := stampAt)), version := task.version + 1)
  }

  /** A record whose claim has been given up, left in status `status`. */
  function Unclaimed(task: TeamTask, status: TaskStatus): TeamTask {
    task.(status := status, claim := None, version := task.version + 1)
  }

  /** Why an operation is refused, or `None` when it goes through. */
  function Refusal(leaseSeconds: int, tasks: TaskMap, op: Op): Option<TaskError> {
    match op
    case Create(id, _) =>
      if id == "" then Some(IdRequired) else None
    case Claim(id, _, expectedVersion, _, checkAt, _) =>
      if id !in tasks then Some(NotFound)
      else if tasks[id].version != expectedVersion then Some(VersionConflict)
      else if Effective(leaseSeconds, tasks[id], checkAt).status != Pending then Some(NotClaimable)
      else if IsBlocked(tasks, tasks[id].dependsOn) then Some(DependencyBlocked)
      else None
    case Reset(id) =>
      if id !in tasks then Some(NotFound) else None
    case Recover(_, _) => None
    case _ =>
      if op.id !in tasks then Some(NotFound)
      else
        var seen := Effective(leaseSeconds, tasks[op.id], op.checkAt);
        if seen.claim.None? || seen.claim.value.token != op.token then Some(InvalidClaim) else None
  }

  /** The record that an accepted operation writes for the task it names. */
  function Written(tasks: TaskMap, op: Op): TeamTask
    requires !op.Recover?
    requires !op.Create? ==> op.id in tasks
    requires op.Renew? ==> tasks[op.id].claim.Some?
  {
    match op
    case Create(id, dependsOn) => TeamTask(id, Pending, dependsOn, None, 1, "")
    case Claim(id, worker, _, token, _, stampAt) => Claimed(tasks[id], worker, token, stampAt)
    case Renew(id, _, _, stampAt) => Renewed(tasks[id], stampAt)
    case Complete(id, _, result, _) => Unclaimed(tasks[id], Completed).(result := result)
    case Fail(id, _, result, _) => Unclaimed(tasks[id], Failed).(result := result)
    case Release(id, _, _) => Unclaimed(tasks[id], Pending)
    case Reset(id) => Unclaimed(tasks[id], Pending)
  }

  function Recovered(leaseSeconds: int, tasks: TaskMap, alive: set<WorkerId>, now: int): TaskMap {
    map id | id in tasks ::
      if IsOrphaned(leaseSeconds, tasks[id], alive, now) then Unclaimed(tasks[id], Pending) else tasks[id]
  }

  function Report(leaseSeconds: int, tasks: TaskMap, op: Op): Outcome {
    var refusal := Refusal(leaseSeconds, tasks, op);
    if refusal.Some? then Rejected(refusal.value)
    else if op.Reset? && tasks[op.id].status != Failed then NothingToDo
    else Done
  }

  /** The store after one operation. */
  function Apply(leaseSeconds: int, tasks: TaskMap, op: Op): TaskMap {
    if Report(leaseSeconds, tasks, op) != Done then tasks
    else if op.Recover? then Recovered(leaseSeconds, tasks, op.alive, op.checkAt)
    else tasks[op.id := Written(tasks, op)]
  }

  /** No task is failed, claimed or in progress. */
  ghost predicate IsIdle(tasks: TaskMap) {
    forall id :: id in tasks ==> tasks[id].status in {Pending, Completed} && tasks[id].claim.None?
  }

  /** The same tasks with the same dependencies. */
  ghost predicate SameShape(tasks: TaskMap, other: TaskMap) {
    tasks.Keys == other.Keys && forall id :: id in tasks ==> tasks[id].dependsOn == other[id].dependsOn
  }

  // ---- renewing a lease while a task executes --------------------------------------------

  /** How many of the renewals succeed, each given by its clock readings for the check and for the
      stamp, before the first one that comes too late. */
  function RenewedCount(leaseSeconds: int, leasedAt: int, ticks: seq<(int, int)>): (n: nat)
    ensures n <= |ticks|
    decreases ticks
  {
    if ticks == [] || !InLease(leaseSeconds, leasedAt, ticks[0].0) then 0
    else 1 + RenewedCount(leaseSeconds, ticks[0].1, ticks[1..])
  }

  function LastStamp(leasedAt: int, ticks: seq<(int, int)>): int {
    if ticks == [] then leasedAt else ticks[|ticks| - 1].1
  }

  /** A claimed record after that many renewals. */
  function AfterRenewals(task: TeamTask, ticks: seq<(int, int)>): TeamTask
    requires task.claim.Some?
  {
    task.(claim := Some(task.claim.value.(leasedAt := LastStamp(task.claim.value.leasedAt, ticks))),
          version := task.version + |ticks|)
  }

  /** Every renewal and the final call come within the lease of the stamp before. */
  predicate InTime(leaseSeconds: int, leasedAt: int, ticks: seq<(int, int)>, finishAt: int) {
    RenewedCount(leaseSeconds, leasedAt, ticks) == |ticks| && InLease(leaseSeconds, LastStamp(leasedAt, ticks), finishAt)
  }

  /** A task that was claimed, renewed a number of times and completed. */
  function CompletedWith(task: TeamTask, result: string, renewals: nat): TeamTask {
    task.(status := Completed, claim := None, result := result, version := task.version + 2 + renewals)
  }
}
