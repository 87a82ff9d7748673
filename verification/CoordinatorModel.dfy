/** The coordinator that drives a team through its phases (internal/team/coordinator.go:147-404,
    591-606), the governance gate it asks before a transition (internal/team/governance.go) and
    the task queries it decides by (internal/team/phases.go:110-141).

    What the environment contributes to one turn of the loop is given by a `Turn`: whether the
    context is cancelled, clock readings, the renewals of the lease while a task executes, the token
    drawn, whether the executed task succeeded, and, for the exec phase, the calls that the concurrent
    workers make on the store they find, in whatever order they take its mutex.
 */
module CoordinatorModel {
  import opened Options
  import opened TaskModel
  import opened TaskRegistries
  import opened TaskDependencies
  import opened Phases

  datatype DecisionType = DecisionClaim | DecisionTransition | DecisionAssign

  datatype Decision = Decision(
    kind: DecisionType,
    workerActiveTasks: int,
    activeWorkerCount: int,
    currentPhaseTasksTerminal: bool)

  datatype PolicyRule = MaxConcurrentTasks(maxTasksPerWorker: int) | PhaseGate | WorkerCapacity(maxWorkers: int)

  predicate Permits(rule: PolicyRule, decision: Decision) {
    match rule
    case MaxConcurrentTasks(most) => decision.kind != DecisionClaim || most <= 0 || decision.workerActiveTasks < most
    case PhaseGate => decision.kind != DecisionTransition || decision.currentPhaseTasksTerminal
    case WorkerCapacity(most) => decision.kind != DecisionClaim || most <= 0 || decision.activeWorkerCount <= most
  }

  datatype CoordinatorError =
    | ContextCancelled
    | PolicyViolation(rule: PolicyRule)
    | TaskFailure(error: TaskError)
    | ExecutionFailed
    | PhaseFailure(refused: PhaseError)

  lemma StandardRules(maxWorkers: int)
    ensures
      var rules := [MaxConcurrentTasks(3), PhaseGate, WorkerCapacity(maxWorkers)];
      && MaxConcurrentTasks(3) in rules && PhaseGate in rules && WorkerCapacity(maxWorkers) in rules
      && forall rule :: rule in rules <==> rule == MaxConcurrentTasks(3) || rule == PhaseGate || rule == WorkerCapacity(maxWorkers)
  {
    var rules := [MaxConcurrentTasks(3), PhaseGate, WorkerCapacity(maxWorkers)];
    assert rules[0] == MaxConcurrentTasks(3) && rules[1] == PhaseGate && rules[2] == WorkerCapacity(maxWorkers);
  }

  /** The error names the first rule that does not permit the decision. */
  ghost predicate IsFirstViolation(rules: seq<PolicyRule>, decision: Decision, error: CoordinatorError) {
    exists i :: 0 <= i < |rules| && error == PolicyViolation(rules[i]) && !Permits(rules[i], decision)
                && forall k :: 0 <= k < i ==> Permits(rules[k], decision)
  }

  datatype Turn = Turn(
    cancelledBefore: bool,
    cancelledDuring: bool,
    claimAt: int,
    renewals: seq<(int, int)>,
    finishAt: int,
    token: Token,
    executed: bool,
    workers: TaskMap -> seq<Op>,
    workersFailed: bool)

  predicate AllCompleted(tasks: TaskMap) {
    forall id :: id in tasks ==> tasks[id].status == Completed
  }

  predicate AllTerminal(tasks: TaskMap) {
    forall id :: id in tasks ==> tasks[id].status in {Completed, Failed}
  }

  /** Every failed task put back to pending. */
  function FailedReset(tasks: TaskMap): TaskMap {
    FailedResetAmong(tasks, tasks.Keys)
  }

  function FailedResetAmong(tasks: TaskMap, ids: set<TaskId>): TaskMap {
    map id | id in tasks ::
      if id in ids && tasks[id].status == Failed then Unclaimed(tasks[id], Pending) else tasks[id]
  }

  ghost function IdsOf(list: seq<TeamTask>, n: nat): set<TaskId>
    requires n <= |list|
  {
    set k | 0 <= k < n :: list[k].id
  }

  ghost predicate AnyFailed(tasks: TaskMap, ids: set<TaskId>) {
    exists id :: id in ids && id in tasks && tasks[id].status == Failed
  }

  lemma OneMoreId(leaseSeconds: int, tasks: TaskMap, now: int, list: seq<TeamTask>, i: nat)
    requires Lists(leaseSeconds, tasks, now, list) && i < |list|
    ensures list[i].id !in IdsOf(list, i) && IdsOf(list, i + 1) == IdsOf(list, i) + {list[i].id}
    ensures list[i].id in tasks && (list[i].status == Failed <==> tasks[list[i].id].status == Failed)
    ensures AnyFailed(tasks, IdsOf(list, i + 1)) <==> AnyFailed(tasks, IdsOf(list, i)) || tasks[list[i].id].status == Failed
  {
  }

  lemma AllIds(leaseSeconds: int, tasks: TaskMap, now: int, list: seq<TeamTask>)
    requires Lists(leaseSeconds, tasks, now, list)
    ensures IdsOf(list, |list|) == tasks.Keys
  {
    forall id | id in tasks ensures id in IdsOf(list, |list|) {
      assert IsListed(list, id);
    }
  }

  lemma ResetOneMore(tasks: TaskMap, ids: set<TaskId>, id: TaskId)
    requires id in tasks && id !in ids
    ensures FailedResetAmong(tasks, ids)[id] == tasks[id]
    ensures FailedResetAmong(tasks, ids + {id}) ==
            if tasks[id].status == Failed then FailedResetAmong(tasks, ids)[id := Unclaimed(tasks[id], Pending)]
            else FailedResetAmong(tasks, ids)
  {
  }

  ghost predicate NothingReady(leaseSeconds: int, tasks: TaskMap, now: int) {
    forall id :: !IsReady(leaseSeconds, tasks, id, now)
  }

  /** The store while the claimed task executes: claimed, with the lease renewed as often as it could be. */
  function Executing(leaseSeconds: int, tasks: TaskMap, id: TaskId, worker: WorkerId, turn: Turn): TaskMap
    requires id in tasks
  {
    var n := RenewedCount(leaseSeconds, turn.claimAt, turn.renewals);
    tasks[id := AfterRenewals(Claimed(tasks[id], worker, turn.token, turn.claimAt), turn.renewals[..n])]
  }

  /** The executed task can be completed exactly when the final call is within the lease. */
  lemma ClaimedAndCompleted(leaseSeconds: int, tasks: TaskMap, id: TaskId, worker: WorkerId, turn: Turn, result: string)
    requires IsReady(leaseSeconds, tasks, id, turn.claimAt) && turn.executed
    ensures var mid := Executing(leaseSeconds, tasks, id, worker, turn);
            var complete := Complete(id, turn.token, result, turn.finishAt);
            && (Report(leaseSeconds, mid, complete) == Done <==> KeptLease(leaseSeconds, turn))
            && Apply(leaseSeconds, mid, complete) == AfterAttempt(leaseSeconds, tasks, id, turn, worker, result)
  {
    var mid := Executing(leaseSeconds, tasks, id, worker, turn);
    var n := RenewedCount(leaseSeconds, turn.claimAt, turn.renewals);
    var complete := Complete(id, turn.token, result, turn.finishAt);
    if Report(leaseSeconds, mid, complete) == Done {
      assert Apply(leaseSeconds, mid, complete) == tasks[id := CompletedWith(tasks[id], result, n)];
    }
  }

  /** After a failed execution the claimed task is not completed, whether or not the failure could be
      recorded. */
  lemma ClaimedAndFailed(leaseSeconds: int, tasks: TaskMap, id: TaskId, worker: WorkerId, turn: Turn, result: string)
    requires id in tasks && !turn.executed
    ensures !AllCompleted(AfterAttempt(leaseSeconds, tasks, id, turn, worker, result))
  {
    var after := AfterAttempt(leaseSeconds, tasks, id, turn, worker, result);
    assert id in after && after[id].status != Completed;
  }

  /** The store after a sequence of calls. */
  function AfterCalls(leaseSeconds: int, tasks: TaskMap, calls: seq<Op>): TaskMap {
    if calls == [] then tasks
    else Apply(leaseSeconds, AfterCalls(leaseSeconds, tasks, calls[..|calls| - 1]), calls[|calls| - 1])
  }

  lemma OneMoreCall(leaseSeconds: int, tasks: TaskMap, calls: seq<Op>, i: nat)
    requires i < |calls|
    ensures AfterCalls(leaseSeconds, tasks, calls[..i + 1])
         == Apply(leaseSeconds, AfterCalls(leaseSeconds, tasks, calls[..i]), calls[i])
  {
    assert calls[..i + 1][..i] == calls[..i];
  }

  /** The store after the workers' calls of an exec phase. */
  function AfterWorkers(leaseSeconds: int, tasks: TaskMap, turn: Turn): TaskMap {
    AfterCalls(leaseSeconds, tasks, turn.workers(tasks))
  }

  const WORKER_RESULT := "completed by coordinator"
  const VERIFIER_RESULT := "verification completed"
  const EXECUTION_FAILED := "execution failed"

  /** The execution was kept leased from the claim to the final call. */
  predicate KeptLease(leaseSeconds: int, turn: Turn) {
    var n := RenewedCount(leaseSeconds, turn.claimAt, turn.renewals);
    InLease(leaseSeconds, LastStamp(turn.claimAt, turn.renewals[..n]), turn.finishAt)
  }

  /** One ready task was claimed and executed, and nothing else changed: it is failed, as far as its lease
      still allows, if the execution failed, completed if the lease was kept, and still claimed otherwise. */
  ghost predicate Attempted(leaseSeconds: int, before: TaskMap, after: TaskMap, turn: Turn, worker: WorkerId, result: string) {
    exists id ::
      && IsReady(leaseSeconds, before, id, turn.claimAt)
      && after == AfterAttempt(leaseSeconds, before, id, turn, worker, result)
  }

  function AfterAttempt(leaseSeconds: int, before: TaskMap, id: TaskId, turn: Turn, worker: WorkerId, result: string): TaskMap
    requires id in before
  {
    var mid := Executing(leaseSeconds, before, id, worker, turn);
    if !turn.executed then Apply(leaseSeconds, mid, Fail(id, turn.token, EXECUTION_FAILED, turn.finishAt))
    else if KeptLease(leaseSeconds, turn)
    then before[id := CompletedWith(before[id], result, RenewedCount(leaseSeconds, turn.claimAt, turn.renewals))]
    else mid
  }

  /** What the body of plan and prd does to the tasks, and exactly when it succeeds; `allowed` says
      whether the phase may move on. */
  ghost predicate Worked(
    leaseSeconds: int, before: TaskMap, after: TaskMap, turn: Turn, allowed: bool, error: Option<CoordinatorError>)
  {
    if NothingReady(leaseSeconds, before, turn.claimAt) then
      after == before && (error.None? <==> allowed)
    else
      && Attempted(leaseSeconds, before, after, turn, "coordinator", WORKER_RESULT)
      && (error.None? <==> allowed && turn.executed && KeptLease(leaseSeconds, turn))
      && (!turn.executed ==> error == Some(ExecutionFailed))
  }

  /** What the body of verify does to the tasks, and exactly when it succeeds. */
  ghost predicate Verified(leaseSeconds: int, before: TaskMap, after: TaskMap, turn: Turn, error: Option<CoordinatorError>) {
    if NothingReady(leaseSeconds, before, turn.claimAt) then
      after == before && (error.None? <==> AllTerminal(after) && !turn.cancelledDuring)
    else
      && Attempted(leaseSeconds, before, after, turn, "verifier", VERIFIER_RESULT)
      && (error.None? <==> !turn.executed || (KeptLease(leaseSeconds, turn) && AllTerminal(after) && !turn.cancelledDuring))
  }

  /** What the body of fix does to the tasks, and exactly when it succeeds. */
  ghost predicate Fixed(before: TaskMap, after: TaskMap, turn: Turn, error: Option<CoordinatorError>) {
    && after == (if turn.cancelledDuring then before else FailedReset(before))
    && (error.None? <==> !turn.cancelledDuring && (AnyFailed(before, before.Keys) || AllTerminal(before)))
  }

  lemma NothingToReset(tasks: TaskMap)
    requires !AnyFailed(tasks, tasks.Keys)
    ensures FailedReset(tasks) == tasks
  {
  }

  /** The transition that was asked for was made, and recorded. */
  predicate WentTo(before: PhaseState, after: PhaseState, to: TeamPhase, reason: string) {
    && after.phase == to && after.fixLoopCount == before.fixLoopCount
    && after.transitions == before.transitions + [PhaseTransition(before.phase, to, Given(reason))]
  }

  /** Where verification leads: to complete if every task is completed, otherwise to fix, or to failed
      when no fix loop is left. */
  function Verdict(maxFixLoops: int, before: PhaseState, tasks: TaskMap): TeamPhase {
    if AllCompleted(tasks) then PhaseComplete
    else if before.fixLoopCount < maxFixLoops then PhaseFix
    else PhaseFailed
  }

  predicate Judged(maxFixLoops: int, before: PhaseState, after: PhaseState, tasks: TaskMap) {
    && after.phase == Verdict(maxFixLoops, before, tasks)
    && after.fixLoopCount == before.fixLoopCount + if after.phase == PhaseFix then 1 else 0
  }

  /** The phase that a phase body without error leads to. */
  ghost function NextPhase(maxFixLoops: int, before: PhaseState, tasksBefore: TaskMap, tasks: TaskMap): TeamPhase
    requires !IsTerminal(before.phase)
  {
    match before.phase
    case PhasePlan => PhasePRD
    case PhasePRD => PhaseExec
    case PhaseExec => PhaseVerify
    case PhaseVerify => Verdict(maxFixLoops, before, tasks)
    case PhaseFix => if AnyFailed(tasksBefore, tasksBefore.Keys) then PhaseExec else PhaseComplete
  }

  /** What a phase body does to the tasks, and exactly when it succeeds. */
  ghost predicate Ran(
    leaseSeconds: int, turn: Turn, phase: TeamPhase, before: TaskMap, after: TaskMap, error: Option<CoordinatorError>)
  {
    match phase
    case PhasePlan => Worked(leaseSeconds, before, after, turn, true, error)
    case PhasePRD => Worked(leaseSeconds, before, after, turn, true, error)
    case PhaseExec =>
      after == AfterWorkers(leaseSeconds, before, turn) && (error.None? <==> AllTerminal(after) && !turn.cancelledDuring)
    case PhaseVerify => Verified(leaseSeconds, before, after, turn, error)
    case PhaseFix => Fixed(before, after, turn, error)
    case _ => false
  }

  /** The store after startup recovery and after creating the given tasks. */
  function Prepared(leaseSeconds: int, tasks: TaskMap, created: seq<(TaskId, seq<TaskId>)>, alive: set<WorkerId>, startAt: int): TaskMap {
    AfterCalls(leaseSeconds, Apply(leaseSeconds, tasks, Recover(alive, startAt)), Creations(created))
  }

  function Creations(created: seq<(TaskId, seq<TaskId>)>): seq<Op> {
    seq(|created|, i requires 0 <= i < |created| => Create(created[i].0, created[i].1))
  }

  predicate AllNamed(created: seq<(TaskId, seq<TaskId>)>) {
    forall i :: 0 <= i < |created| ==> created[i].0 != ""
  }

  /** Entry k creates the task, and no later one does. */
  ghost predicate CreatesLast(created: seq<(TaskId, seq<TaskId>)>, k: nat, id: TaskId) {
    k < |created| && created[k].0 == id && forall j :: k < j < |created| ==> created[j].0 != id
  }

  lemma {:induction false} CreatedIs(leaseSeconds: int, tasks: TaskMap, created: seq<(TaskId, seq<TaskId>)>, k: nat)
    requires AllNamed(created) && k < |created| && CreatesLast(created, k, created[k].0)
    ensures
      var id, after := created[k].0, AfterCalls(leaseSeconds, tasks, Creations(created));
      id in after && after[id] == TeamTask(id, Pending, created[k].1, None, 1, "")
  {
    OneMoreCreation(leaseSeconds, tasks, created);
    if k < |created| - 1 {
      CreatedIs(leaseSeconds, tasks, created[..|created| - 1], k);
    }
  }

  lemma {:induction false} NotCreatedIs(leaseSeconds: int, tasks: TaskMap, created: seq<(TaskId, seq<TaskId>)>, id: TaskId)
    requires AllNamed(created) && forall j :: 0 <= j < |created| ==> created[j].0 != id
    ensures
      var after := AfterCalls(leaseSeconds, tasks, Creations(created));
      (id in after <==> id in tasks) && (id in tasks ==> after[id] == tasks[id])
  {
    if created != [] {
      OneMoreCreation(leaseSeconds, tasks, created);
      NotCreatedIs(leaseSeconds, tasks, created[..|created| - 1], id);
    }
  }

  lemma OneMoreCreation(leaseSeconds: int, tasks: TaskMap, created: seq<(TaskId, seq<TaskId>)>)
    requires AllNamed(created) && created != []
    ensures
      var n := |created| - 1;
      AfterCalls(leaseSeconds, tasks, Creations(created)) == AfterCalls(leaseSeconds, tasks, Creations(created[..n]))[
        created[n].0 := TeamTask(created[n].0, Pending, created[n].1, None, 1, "")]
  {
    var n := |created| - 1;
    assert Creations(created)[..n] == Creations(created[..n]);
  }

  /** A prepared store holds the created tasks, new and pending as the last entry of their name wants them, and
      the others as they were, except that claims of workers that are not alive have been given up. */
  lemma PreparedIs(
    leaseSeconds: int, tasks: TaskMap, created: seq<(TaskId, seq<TaskId>)>, alive: set<WorkerId>, startAt: int, id: TaskId)
    requires AllNamed(created)
    ensures
      var after := Prepared(leaseSeconds, tasks, created, alive, startAt);
      && (forall k: nat :: CreatesLast(created, k, id) ==>
            id in after && after[id] == TeamTask(id, Pending, created[k].1, None, 1, ""))
      && ((forall j :: 0 <= j < |created| ==> created[j].0 != id) ==>
            && (id in after <==> id in tasks)
            && (id in tasks ==>
                  var task := tasks[id];
                  after[id] ==
                    if task.status == InProgress && task.claim.Some? && task.claim.value.worker !in alive
                       && (leaseSeconds <= 0 || startAt - task.claim.value.leasedAt <= leaseSeconds * 1_000_000_000)
                    then task.(status := Pending, claim := None, version := task.version + 1) else task))
  {
    var recovered := Apply(leaseSeconds, tasks, Recover(alive, startAt));
    forall k: nat | CreatesLast(created, k, id)
      ensures
        var after := AfterCalls(leaseSeconds, recovered, Creations(created));
        id in after && after[id] == TeamTask(id, Pending, created[k].1, None, 1, "")
    {
      CreatedIs(leaseSeconds, recovered, created, k);
    }
    if forall j :: 0 <= j < |created| ==> created[j].0 != id {
      NotCreatedIs(leaseSeconds, recovered, created, id);
    }
  }

  /** Where a team is left when the body of a phase fails: in failed exactly if the context was live and
      the phase was verify or fix, and otherwise in the phase it was in. */
  predicate IsLeftIn(phase: TeamPhase, failedIn: TeamPhase, cancelled: bool) {
    && (phase == PhaseFailed <==> !cancelled && failedIn in {PhaseVerify, PhaseFix})
    && (phase != PhaseFailed ==> phase == failedIn)
  }

  /** A phase body that reports no error has made an accepted transition; one that reports an
      error has left the phase alone. */
  ghost predicate Advanced(maxFixLoops: int, before: PhaseState, after: PhaseState, error: Option<CoordinatorError>) {
    if error.None? then Measure(maxFixLoops, after) < Measure(maxFixLoops, before) else after == before
  }

  // ---- whole runs -------------------------------------------------------------------------

  /** The phase state and the tasks between two phase bodies. */
  datatype Moment = Moment(view: PhaseState, tasks: TaskMap)

  /** A phase body that succeeds. */
  ghost predicate Passes(leaseSeconds: int, maxFixLoops: int, turn: Turn, m: Moment, next: Moment) {
    && !turn.cancelledBefore && !IsTerminal(m.view.phase)
    && Ran(leaseSeconds, turn, m.view.phase, m.tasks, next.tasks, None)
    && next.view.phase == NextPhase(maxFixLoops, m.view, m.tasks, next.tasks)
  }

  ghost predicate PassesAt(leaseSeconds: int, maxFixLoops: int, turns: nat -> Turn, trail: seq<Moment>, k: nat)
    requires k + 1 < |trail|
  {
    Passes(leaseSeconds, maxFixLoops, turns(k), trail[k], trail[k + 1])
  }

  /** The moments before each phase body of a run, every body but the last having succeeded. */
  ghost predicate IsTrail(leaseSeconds: int, maxFixLoops: int, turns: nat -> Turn, trail: seq<Moment>) {
    && trail != []
    && forall k: nat {:trigger PassesAt(leaseSeconds, maxFixLoops, turns, trail, k)} ::
         k + 1 < |trail| ==> PassesAt(leaseSeconds, maxFixLoops, turns, trail, k)
  }

  /** The body of the phase at moment `m` fails and leaves the team as `end` describes. The error that is
      reported is the body's own unless the context was cancelled. */
  ghost predicate Fails(leaseSeconds: int, turn: Turn, m: Moment, end: Moment, error: Option<CoordinatorError>) {
    && error.Some? && IsLeftIn(end.view.phase, m.view.phase, turn.cancelledDuring)
    && if turn.cancelledDuring then error.value == ContextCancelled && CanFail(leaseSeconds, turn, m, end)
       else Ran(leaseSeconds, turn, m.view.phase, m.tasks, end.tasks, error)
  }

  ghost predicate CanFail(leaseSeconds: int, turn: Turn, m: Moment, end: Moment) {
    exists failure :: Ran(leaseSeconds, turn, m.view.phase, m.tasks, end.tasks, Some(failure))
  }

  lemma FailsWith(leaseSeconds: int, turn: Turn, m: Moment, end: Moment, failure: CoordinatorError)
    ensures
      Ran(leaseSeconds, turn, m.view.phase, m.tasks, end.tasks, Some(failure))
      && IsLeftIn(end.view.phase, m.view.phase, turn.cancelledDuring) ==>
        Fails(leaseSeconds, turn, m, end, Some(if turn.cancelledDuring then ContextCancelled else failure))
  {
  }

  /** How a run ends that has got to moment `m`: cancelled before the next body, done, or with a failing
      body. */
  ghost predicate EndsWith(
    leaseSeconds: int, maxFixLoops: int, turn: Turn, m: Moment, end: Moment, error: Option<CoordinatorError>)
  {
    if turn.cancelledBefore then
      && error == Some(ContextCancelled) && end.tasks == m.tasks
      && end.view == Cancelled(m.view, "context cancelled")
    else if IsTerminal(m.view.phase) then error.None? && end == m
    else Fails(leaseSeconds, turn, m, end, error)
  }

  lemma TrailGrows(leaseSeconds: int, maxFixLoops: int, turns: nat -> Turn, trail: seq<Moment>, next: Moment)
    requires IsTrail(leaseSeconds, maxFixLoops, turns, trail)
    requires Passes(leaseSeconds, maxFixLoops, turns(|trail| - 1), trail[|trail| - 1], next)
    ensures IsTrail(leaseSeconds, maxFixLoops, turns, trail + [next])
  {
    var longer := trail + [next];
    forall k: nat | k + 1 < |longer| ensures PassesAt(leaseSeconds, maxFixLoops, turns, longer, k) {
      if k + 1 < |trail| {
        assert PassesAt(leaseSeconds, maxFixLoops, turns, trail, k);
      }
    }
  }

  /** What the end of a run is, after the moments of its trail and a number of bodies. */
  ghost predicate Concludes(
    leaseSeconds: int, maxFixLoops: int, turns: nat -> Turn, trail: seq<Moment>, bodies: nat, end: Moment,
    error: Option<CoordinatorError>)
    requires trail != []
  {
    var last := |trail| - 1;
    && EndsWith(leaseSeconds, maxFixLoops, turns(last), trail[last], end, error)
    && bodies == last + (if turns(last).cancelledBefore || IsTerminal(trail[last].view.phase) then 0 else 1)
    && (error.None? <==> !turns(last).cancelledBefore && IsTerminal(trail[last].view.phase))
    && (turns(last).cancelledBefore ==>
          end.view.phase == if trail[last].view.phase in {PhaseComplete, PhaseFailed, PhaseCancelled}
                            then trail[last].view.phase else PhaseCancelled)
    && (!turns(last).cancelledBefore && !IsTerminal(trail[last].view.phase) ==>
          IsLeftIn(end.view.phase, trail[last].view.phase, turns(last).cancelledDuring))
  }

  /** The run begins in plan, finds a task ready and fails to execute it. */
  ghost predicate FirstTaskFails(leaseSeconds: int, m: Moment, turn: Turn) {
    && m.view.phase == PhasePlan && !turn.cancelledBefore && !turn.executed
    && !NothingReady(leaseSeconds, m.tasks, turn.claimAt)
  }

  /** A failing first task ends the run in plan. */
  lemma FirstFailureEndsInPlan(
    leaseSeconds: int, maxFixLoops: int, turns: nat -> Turn, trail: seq<Moment>, end: Moment, error: Option<CoordinatorError>)
    requires IsTrail(leaseSeconds, maxFixLoops, turns, trail) && FirstTaskFails(leaseSeconds, trail[0], turns(0))
    requires EndsWith(leaseSeconds, maxFixLoops, turns(|trail| - 1), trail[|trail| - 1], end, error)
    ensures |trail| == 1 && end.view.phase == PhasePlan
    ensures error == Some(if turns(0).cancelledDuring then ContextCancelled else ExecutionFailed)
  {
    assert |trail| > 1 ==> PassesAt(leaseSeconds, maxFixLoops, turns, trail, 0);
  }

  // ---- a run in which nothing goes wrong --------------------------------------------------

  /** No cancellation, an execution that succeeds with its lease kept, and exec workers that complete
      every task of a store with the given shape in which none is failed or claimed. */
  ghost predicate IsSmooth(leaseSeconds: int, start: TaskMap, turn: Turn) {
    && !turn.cancelledBefore && !turn.cancelledDuring && turn.executed
    && InTime(leaseSeconds, turn.claimAt, turn.renewals, turn.finishAt)
    && forall tasks :: SameShape(start, tasks) && IsIdle(tasks) ==> AllCompleted(AfterWorkers(leaseSeconds, tasks, turn))
  }

  /** The run begins in plan with no task failed or claimed, and every turn is smooth. */
  ghost predicate IsSmoothRun(leaseSeconds: int, m: Moment, turns: nat -> Turn) {
    m.view.phase == PhasePlan && IsIdle(m.tasks) && forall n :: IsSmooth(leaseSeconds, m.tasks, turns(n))
  }

  /** Where such a run is after a number of phase bodies. */
  ghost predicate OnCourse(start: TaskMap, bodies: nat, phase: TeamPhase, tasks: TaskMap) {
    if bodies <= 2 then
      && phase == (if bodies == 0 then PhasePlan else if bodies == 1 then PhasePRD else PhaseExec)
      && SameShape(start, tasks) && IsIdle(tasks)
    else
      bodies <= 4 && phase == (if bodies == 3 then PhaseVerify else PhaseComplete) && AllCompleted(tasks)
  }

  lemma FinishingOneKeepsIdle(
    leaseSeconds: int, start: TaskMap, before: TaskMap, after: TaskMap, turn: Turn, worker: WorkerId, result: string)
    requires SameShape(start, before) && IsIdle(before) && turn.executed && KeptLease(leaseSeconds, turn)
    requires Attempted(leaseSeconds, before, after, turn, worker, result)
    ensures SameShape(start, after) && IsIdle(after)
  {
  }

  lemma SmoothStep(
    leaseSeconds: int, maxFixLoops: int, start: TaskMap, turn: Turn, bodies: nat, view: PhaseState, before: TaskMap,
    phase: TeamPhase, after: TaskMap, error: Option<CoordinatorError>)
    requires OnCourse(start, bodies, view.phase, before) && bodies < 4 && IsSmooth(leaseSeconds, start, turn)
    requires Ran(leaseSeconds, turn, view.phase, before, after, error)
    requires error.None? ==> phase == NextPhase(maxFixLoops, view, before, after)
    ensures error.None? && OnCourse(start, bodies + 1, phase, after)
  {
    if bodies <= 1 {
      assert turn.renewals[..|turn.renewals|] == turn.renewals;
      if !NothingReady(leaseSeconds, before, turn.claimAt) {
        FinishingOneKeepsIdle(leaseSeconds, start, before, after, turn, "coordinator", WORKER_RESULT);
      }
    } else if bodies == 3 {
      assert NothingReady(leaseSeconds, before, turn.claimAt);
    }
  }

  lemma {:induction false} StaysOnCourse(
    leaseSeconds: int, maxFixLoops: int, turns: nat -> Turn, trail: seq<Moment>, k: nat)
    requires IsTrail(leaseSeconds, maxFixLoops, turns, trail) && IsSmoothRun(leaseSeconds, trail[0], turns) && k < |trail|
    ensures OnCourse(trail[0].tasks, k, trail[k].view.phase, trail[k].tasks)
  {
    if k > 0 {
      var j: nat := k - 1;
      StaysOnCourse(leaseSeconds, maxFixLoops, turns, trail, j);
      assert PassesAt(leaseSeconds, maxFixLoops, turns, trail, j);
      SmoothStep(leaseSeconds, maxFixLoops, trail[0].tasks, turns(j), j, trail[j].view, trail[j].tasks,
                 trail[k].view.phase, trail[k].tasks, None);
    }
  }

  /** When nothing goes wrong, four bodies take the team from plan to complete. */
  lemma SmoothRunCompletes(
    leaseSeconds: int, maxFixLoops: int, turns: nat -> Turn, trail: seq<Moment>, end: Moment, error: Option<CoordinatorError>)
    requires IsTrail(leaseSeconds, maxFixLoops, turns, trail) && IsSmoothRun(leaseSeconds, trail[0], turns)
    requires EndsWith(leaseSeconds, maxFixLoops, turns(|trail| - 1), trail[|trail| - 1], end, error)
    ensures |trail| == 5 && error.None? && end.view.phase == PhaseComplete && AllCompleted(end.tasks)
  {
    var last: nat := |trail| - 1;
    StaysOnCourse(leaseSeconds, maxFixLoops, turns, trail, last);
    if last < 4 {
      SmoothStep(leaseSeconds, maxFixLoops, trail[0].tasks, turns(last), last, trail[last].view, trail[last].tasks,
                 NextPhase(maxFixLoops, trail[last].view, trail[last].tasks, end.tasks), end.tasks, error);
    }
  }

  // ---- a worker of the exec phase ---------------------------------------------------------

  /** How a worker's loop ends: no task is ready, a completed execution had lost its lease, or the context
      is cancelled. */
  datatype LoopEnd = NothingLeft | LostLease | Interrupted

  /** The clock does not run backwards from one execution to the next. */
  ghost predicate IsTimely(turns: seq<Turn>) {
    forall i, j :: 0 <= i < j < |turns| ==> turns[i].finishAt <= turns[j].claimAt
  }

  /** From `clock` on no lease is live. */
  ghost predicate IsQuietFrom(leaseSeconds: int, tasks: TaskMap, clock: int) {
    forall now :: now >= clock ==> IsQuiet(leaseSeconds, tasks, now)
  }

  /** An execution of a ready task, whatever its result, settles at most that task and leaves no live
      lease behind, unless it succeeded after its lease was lost. */
  lemma AttemptSettles(leaseSeconds: int, before: TaskMap, id: TaskId, turn: Turn, worker: WorkerId, result: string)
    requires IsReady(leaseSeconds, before, id, turn.claimAt)
    ensures var after := AfterAttempt(leaseSeconds, before, id, turn, worker, result);
            && SameShape(before, after)
            && (forall other :: other in before && other != id ==> after[other] == before[other])
            && (if KeptLease(leaseSeconds, turn) then after[id].status == (if turn.executed then Completed else Failed)
                else after[id].status == InProgress && LeaseExpired(leaseSeconds, after[id], turn.finishAt))
  {
  }

  /** The record that such an execution leaves: completed with its result or failed, or, if the final call came
      too late, still claimed with the stamp of the last renewal. */
  lemma AttemptLeaves(leaseSeconds: int, before: TaskMap, id: TaskId, turn: Turn, worker: WorkerId, result: string)
    requires IsReady(leaseSeconds, before, id, turn.claimAt)
    ensures
      var n := RenewedCount(leaseSeconds, turn.claimAt, turn.renewals);
      var stamp := if n == 0 then turn.claimAt else turn.renewals[n - 1].1;
      AfterAttempt(leaseSeconds, before, id, turn, worker, result) == before[id :=
        if leaseSeconds <= 0 || turn.finishAt - stamp <= leaseSeconds * 1_000_000_000
        then before[id].(status := if turn.executed then Completed else Failed, claim := None,
                         result := if turn.executed then result else "execution failed", version := before[id].version + 2 + n)
        else before[id].(status := InProgress, claim := Some(TaskClaim(worker, turn.token, stamp)),
                         version := before[id].version + 1 + n)]
  {
    var n := RenewedCount(leaseSeconds, turn.claimAt, turn.renewals);
    assert n > 0 ==> turn.renewals[..n][n - 1] == turn.renewals[n - 1];
  }

  lemma AttemptKeepsQuiet(
    leaseSeconds: int, before: TaskMap, id: TaskId, turn: Turn, worker: WorkerId, result: string, clock: int)
    requires IsReady(leaseSeconds, before, id, turn.claimAt) && IsQuietFrom(leaseSeconds, before, clock)
    requires clock <= turn.finishAt
    ensures IsQuietFrom(leaseSeconds, AfterAttempt(leaseSeconds, before, id, turn, worker, result), turn.finishAt)
  {
    AttemptSettles(leaseSeconds, before, id, turn, worker, result);
    var after := AfterAttempt(leaseSeconds, before, id, turn, worker, result);
    forall now | now >= turn.finishAt ensures IsQuiet(leaseSeconds, after, now) {
      assert IsQuiet(leaseSeconds, before, now);
    }
  }

  /** One unsettled task fewer if the lease was kept, and as many otherwise. */
  lemma AttemptCounts(leaseSeconds: int, before: TaskMap, id: TaskId, turn: Turn, worker: WorkerId, result: string)
    requires IsReady(leaseSeconds, before, id, turn.claimAt)
    ensures var after := AfterAttempt(leaseSeconds, before, id, turn, worker, result);
            Unsettled(after) == if KeptLease(leaseSeconds, turn) then Unsettled(before) - {id} else Unsettled(before)
    ensures id in Unsettled(before)
  {
    AttemptSettles(leaseSeconds, before, id, turn, worker, result);
  }

  ghost predicate AllKept(leaseSeconds: int, turns: seq<Turn>) {
    forall k :: 0 <= k < |turns| ==> KeptLease(leaseSeconds, turns[k])
  }

  predicate AllExecuted(turns: seq<Turn>) {
    forall k :: 0 <= k < |turns| ==> turns[k].executed
  }

  predicate NoneFailed(tasks: TaskMap) {
    forall id :: id in tasks ==> tasks[id].status != Failed
  }

  /** There is nothing left for a worker to do at `now`, and what is not completed leads to a failed task. */
  ghost predicate IsDone(leaseSeconds: int, tasks: TaskMap, now: int) {
    && NothingReady(leaseSeconds, tasks, now) && IsQuiet(leaseSeconds, tasks, now)
    && DependenciesAreStored(tasks) && IsAcyclic(tasks)
    && forall id :: id in tasks ==> tasks[id].status == Completed || LeadsToFailed(tasks, id)
  }

  lemma NothingReadyMeansDone(leaseSeconds: int, start: TaskMap, tasks: TaskMap, now: int)
    requires DependenciesAreStored(start) && IsAcyclic(start) && SameShape(start, tasks)
    requires NothingReady(leaseSeconds, tasks, now) && IsQuiet(leaseSeconds, tasks, now)
    ensures IsDone(leaseSeconds, tasks, now)
  {
    ShapeDecidesCycles(start, tasks);
    NothingReadyLeavesFailures(leaseSeconds, tasks, now);
  }

  /** Where a worker's loop is after k executions. */
  ghost predicate IsUnderWay(leaseSeconds: int, start: TaskMap, tasks: TaskMap, turns: seq<Turn>, k: nat) {
    && k <= |turns| && SameShape(start, tasks)
    && (k < |turns| ==> IsQuietFrom(leaseSeconds, tasks, turns[k].claimAt))
    && (AllKept(leaseSeconds, turns) ==> |Unsettled(tasks)| + k == |Unsettled(start)|)
    && (AllExecuted(turns) && NoneFailed(start) ==> NoneFailed(tasks))
  }

  /** An execution keeps the loop under way. */
  lemma TurnKeepsCourse(
    leaseSeconds: int, start: TaskMap, before: TaskMap, id: TaskId, worker: WorkerId, turns: seq<Turn>, k: nat)
    requires k < |turns| && IsTimely(turns) && turns[k].claimAt <= turns[k].finishAt
    requires IsUnderWay(leaseSeconds, start, before, turns, k) && IsReady(leaseSeconds, before, id, turns[k].claimAt)
    ensures IsUnderWay(leaseSeconds, start, AfterAttempt(leaseSeconds, before, id, turns[k], worker, "completed by " + worker), turns, k + 1)
  {
    var result := "completed by " + worker;
    AttemptSettles(leaseSeconds, before, id, turns[k], worker, result);
    AttemptCounts(leaseSeconds, before, id, turns[k], worker, result);
    AttemptKeepsQuiet(leaseSeconds, before, id, turns[k], worker, result, turns[k].claimAt);
  }

  ghost predicate AnyHeldUp(tasks: TaskMap) {
    exists id, d :: HoldsUp(tasks, id, d)
  }

  lemma TerminalIffNoneHeldUp(leaseSeconds: int, tasks: TaskMap, now: int)
    requires IsDone(leaseSeconds, tasks, now)
    ensures AllTerminal(tasks) <==> !AnyHeldUp(tasks)
  {
    UnsettledIffHeldUp(leaseSeconds, tasks, now);
    assert AllTerminal(tasks) <==> Unsettled(tasks) == {} by {
      if Unsettled(tasks) != {} {
        var id :| id in Unsettled(tasks);
      } else {
        assert forall id :: id in tasks ==> id !in Unsettled(tasks);
      }
    }
  }

  lemma DoneWithoutFailure(leaseSeconds: int, tasks: TaskMap, now: int)
    requires IsDone(leaseSeconds, tasks, now)
    ensures NoneFailed(tasks) ==> AllCompleted(tasks)
  {
    if NoneFailed(tasks) {
      forall id | id in tasks ensures !LeadsToFailed(tasks, id) {
        assert forall path :: !IsPathToFailed(tasks, path, id);
      }
    }
  }
}
