/** The coordinator as it runs, on a task registry and a phase machine. */
module Coordinators {
  import opened Options
  import opened TaskModel
  import opened TaskRegistries
  import opened TaskDependencies
  import opened Phases
  import opened CoordinatorModel

  class Coordinator {
    const registry: TaskRegistry
    const phases: PhaseMachine
    const maxWorkers: int
    const rules: seq<PolicyRule> := [MaxConcurrentTasks(3), PhaseGate, WorkerCapacity(maxWorkers)]

    constructor (registry: TaskRegistry, phases: PhaseMachine, maxWorkers: int)
      ensures this.registry == registry && this.phases == phases && this.maxWorkers == maxWorkers
    {
      this.registry := registry;
      this.phases := phases;
      this.maxWorkers := maxWorkers;
    }

    ghost predicate Valid()
      reads registry, phases
    {
      && KeyedById(registry.tasks)
      && IsHistory(phases.maxFixLoops, phases.View())
    }

    ghost function Now(): Moment
      reads registry, phases
    {
      Moment(phases.View(), registry.tasks)
    }

    method AllTasksTerminal(now: int) returns (all: bool)
      requires KeyedById(registry.tasks)
      ensures all == AllTerminal(registry.tasks)
    {
      var list := registry.ListTasks(now);
      for i := 0 to |list|
        invariant forall k :: 0 <= k < i ==> registry.tasks[list[k].id].status in {Completed, Failed}
      {
        if list[i].status != Completed && list[i].status != Failed {
          return false;
        }
      }
      forall id | id in registry.tasks ensures registry.tasks[id].status in {Completed, Failed} {
        assert IsListed(list, id);
      }
      all := true;
    }

    method AllTasksCompleted(now: int) returns (all: bool)
      requires KeyedById(registry.tasks)
      ensures all == AllCompleted(registry.tasks)
    {
      var list := registry.ListTasks(now);
      for i := 0 to |list|
        invariant forall k :: 0 <= k < i ==> registry.tasks[list[k].id].status == Completed
      {
        if list[i].status != Completed {
          return false;
        }
      }
      forall id | id in registry.tasks ensures registry.tasks[id].status == Completed {
        assert IsListed(list, id);
      }
      all := true;
    }

    /** The first rule that refuses the decision, in order; a cancelled context refuses before the
        first rule is asked. */
    method CheckGovernance(decision: Decision, cancelled: bool) returns (error: Option<CoordinatorError>)
      ensures error.None? <==> (rules == [] || !cancelled) && forall rule :: rule in rules ==> Permits(rule, decision)
      ensures error.Some? ==> if cancelled then error.value == ContextCancelled else IsFirstViolation(rules, decision, error.value)
    {
      for i := 0 to |rules|
        invariant forall k :: 0 <= k < i ==> Permits(rules[k], decision)
        invariant i > 0 ==> !cancelled
      {
        if cancelled {
          return Some(ContextCancelled);
        }
        if !Permits(rules[i], decision) {
          return Some(PolicyViolation(rules[i]));
        }
      }
      error := None;
    }

    /** A worker may claim a task exactly when the context is live, it has fewer than three active tasks, and
        no more workers are active than there may be. */
    method CheckClaimGovernance(workerActiveTasks: int, activeWorkerCount: int, cancelled: bool)
      returns (error: Option<CoordinatorError>)
      ensures error.None? <==>
                !cancelled && workerActiveTasks < 3 && (maxWorkers <= 0 || activeWorkerCount <= maxWorkers)
      ensures error.Some? && !cancelled ==>
                error.value == PolicyViolation(if workerActiveTasks >= 3 then MaxConcurrentTasks(3) else WorkerCapacity(maxWorkers))
    {
      error := CheckGovernance(Decision(DecisionClaim, workerActiveTasks, activeWorkerCount, false), cancelled);
      StandardRules(maxWorkers);
    }

    /** A transition passes the gate exactly when every task is terminal and the context is live. */
    method CheckTransitionGovernance(now: int, cancelled: bool) returns (error: Option<CoordinatorError>)
      requires Valid()
      ensures error.None? <==> AllTerminal(registry.tasks) && !cancelled
    {
      var allTerminal := AllTasksTerminal(now);
      error := CheckGovernance(Decision(DecisionTransition, 0, 0, allTerminal), cancelled);
      StandardRules(maxWorkers);
    }

    method MoveTo(to: TeamPhase, reason: string) returns (error: Option<CoordinatorError>)
      requires Valid()
      modifies phases
      ensures Valid() && Advanced(phases.maxFixLoops, old(phases.View()), phases.View(), error)
      ensures phases.View() == Transitioned(phases.maxFixLoops, old(phases.View()), to, reason)
    {
      var refused := phases.Transition(to, reason);
      if refused.Some? {
        return Some(PhaseFailure(refused.value));
      }
      TransitionLowersMeasure(phases.maxFixLoops, old(phases.View()), to, reason);
      TransitionKeepsHistory(phases.maxFixLoops, old(phases.View()), to, reason);
      error := None;
    }

    /** Claims the next task and keeps its lease renewed while it executes. */
    method ClaimAndExecute(turn: Turn, worker: WorkerId) returns (claimed: Option<TaskId>)
      requires KeyedById(registry.tasks)
      modifies registry
      ensures KeyedById(registry.tasks)
      ensures claimed.None? ==>
                registry.tasks == old(registry.tasks) && NothingReady(registry.leaseSeconds, registry.tasks, turn.claimAt)
      ensures claimed.Some? ==>
                && IsReady(registry.leaseSeconds, old(registry.tasks), claimed.value, turn.claimAt)
                && registry.tasks == Executing(registry.leaseSeconds, old(registry.tasks), claimed.value, worker, turn)
    {
      claimed := registry.ClaimNextTask(worker, turn.token, turn.claimAt, turn.claimAt, turn.claimAt);
      if claimed.Some? {
        var renewed := registry.RenewWhileExecuting(claimed.value, turn.token, turn.renewals);
      }
    }

    /** Ends the execution of a claimed task: fails it, or completes it if its lease was kept. */
    method EndExecution(turn: Turn, id: TaskId, worker: WorkerId, result: string, ghost before: TaskMap)
      returns (error: Option<CoordinatorError>)
      requires KeyedById(registry.tasks) && IsReady(registry.leaseSeconds, before, id, turn.claimAt)
      requires registry.tasks == Executing(registry.leaseSeconds, before, id, worker, turn)
      modifies registry
      ensures KeyedById(registry.tasks)
      ensures registry.tasks == AfterAttempt(registry.leaseSeconds, before, id, turn, worker, result)
      ensures !turn.executed ==> error == Some(ExecutionFailed) && !AllCompleted(registry.tasks)
      ensures turn.executed ==> (error.None? <==> KeptLease(registry.leaseSeconds, turn))
    {
      if !turn.executed {
        ClaimedAndFailed(registry.leaseSeconds, before, id, worker, turn, result);
        var failed := registry.FailTask(id, turn.token, EXECUTION_FAILED, turn.finishAt);
        return Some(ExecutionFailed);
      }
      ClaimedAndCompleted(registry.leaseSeconds, before, id, worker, turn, result);
      var outcome := registry.CompleteTask(id, turn.token, result, turn.finishAt);
      if outcome.Rejected? {
        return Some(TaskFailure(outcome.error));
      }
      error := None;
    }

    method RunWorkerPhase(turn: Turn, next: TeamPhase, reason: string) returns (error: Option<CoordinatorError>)
      requires Valid() && next != PhaseComplete && next != PhaseFix
      modifies registry, phases
      ensures Valid() && Advanced(phases.maxFixLoops, old(phases.View()), phases.View(), error)
      ensures phases.phase == PhaseComplete ==> old(phases.phase) == PhaseComplete
      ensures Worked(registry.leaseSeconds, old(registry.tasks), registry.tasks, turn,
                     TransitionError(old(phases.View()), next).None?, error)
      ensures error.None? ==>
                WentTo(old(phases.View()), phases.View(), next,
                       if NothingReady(registry.leaseSeconds, old(registry.tasks), turn.claimAt) then reason + ": no tasks" else reason)
    {
      var claimed := ClaimAndExecute(turn, "coordinator");
      if claimed.None? {
        error := MoveTo(next, reason + ": no tasks");
        return;
      }
      assert !NothingReady(registry.leaseSeconds, old(registry.tasks), turn.claimAt);
      error := EndExecution(turn, claimed.value, "coordinator", WORKER_RESULT, old(registry.tasks));
      if error.Some? {
        return;
      }
      error := MoveTo(next, reason);
    }

    method RunExecPhase(turn: Turn) returns (error: Option<CoordinatorError>)
      requires Valid()
      modifies registry, phases
      ensures Valid() && Advanced(phases.maxFixLoops, old(phases.View()), phases.View(), error)
      ensures phases.phase == PhaseComplete ==> old(phases.phase) == PhaseComplete
      ensures registry.tasks == AfterWorkers(registry.leaseSeconds, old(registry.tasks), turn)
      ensures error.None? <==>
                AllTerminal(registry.tasks) && !turn.cancelledDuring && TransitionError(old(phases.View()), PhaseVerify).None?
      ensures error.None? ==> WentTo(old(phases.View()), phases.View(), PhaseVerify, "exec phase complete")
    {
      var calls := turn.workers(registry.tasks);
      for k := 0 to |calls|
        invariant Valid() && unchanged(phases)
        invariant registry.tasks == AfterCalls(registry.leaseSeconds, old(registry.tasks), calls[..k])
      {
        OneMoreCall(registry.leaseSeconds, old(registry.tasks), calls, k);
        var outcome := registry.Perform(calls[k]);
      }
      assert calls[..|calls|] == calls;
      error := LeaveExec(turn);
    }

    /** What the exec phase does when its workers have returned. */
    method LeaveExec(turn: Turn) returns (error: Option<CoordinatorError>)
      requires Valid()
      modifies phases
      ensures Valid() && Advanced(phases.maxFixLoops, old(phases.View()), phases.View(), error)
      ensures phases.phase == PhaseComplete ==> old(phases.phase) == PhaseComplete
      ensures error.None? <==>
                AllTerminal(registry.tasks) && !turn.cancelledDuring && TransitionError(old(phases.View()), PhaseVerify).None?
      ensures error.None? ==> WentTo(old(phases.View()), phases.View(), PhaseVerify, "exec phase complete")
    {
      if turn.workersFailed {
        if turn.cancelledDuring {
          return Some(ContextCancelled);
        }
        var allDone := AllTasksTerminal(turn.finishAt);
        if !allDone {
          return Some(ExecutionFailed);
        }
      }
      error := CheckTransitionGovernance(turn.finishAt, turn.cancelledDuring);
      if error.Some? {
        return;
      }
      error := MoveTo(PhaseVerify, "exec phase complete");
    }

    /** The loop of a worker that runs alone, with any results of its executions. It ends when nothing is
        ready, when a completed execution has lost its lease, or when the context is cancelled, which it is
        after the given turns at the latest.

        When nothing is ready any more, every task is completed except those from which dependencies lead
        to a failed one. That is how it ends if there are more turns than unsettled tasks and no execution
        loses its lease. */
    method WorkerLoop(worker: WorkerId, turns: seq<Turn>) returns (end: LoopEnd, executed: nat)
      requires KeyedById(registry.tasks) && DependenciesAreStored(registry.tasks) && IsAcyclic(registry.tasks)
      requires IsTimely(turns) && (turns != [] ==> IsQuietFrom(registry.leaseSeconds, registry.tasks, turns[0].claimAt))
      requires forall k :: 0 <= k < |turns| ==> turns[k].claimAt <= turns[k].finishAt
      modifies registry
      ensures KeyedById(registry.tasks) && SameShape(old(registry.tasks), registry.tasks) && executed <= |turns|
      ensures end == NothingLeft ==> executed < |turns| && IsDone(registry.leaseSeconds, registry.tasks, turns[executed].claimAt)
      ensures end == LostLease ==>
                executed > 0 && turns[executed - 1].executed && !KeptLease(registry.leaseSeconds, turns[executed - 1])
      ensures end == Interrupted ==> executed == |turns|
      ensures AllKept(registry.leaseSeconds, turns) ==>
                && end != LostLease && |Unsettled(registry.tasks)| + executed == |Unsettled(old(registry.tasks))|
                && (|turns| > |Unsettled(old(registry.tasks))| ==> end == NothingLeft)
      ensures AllExecuted(turns) && NoneFailed(old(registry.tasks)) ==>
                NoneFailed(registry.tasks) && (end == NothingLeft ==> AllCompleted(registry.tasks))
    {
      executed := 0;
      ghost var start := registry.tasks;
      while executed < |turns|
        invariant KeyedById(registry.tasks) && IsUnderWay(registry.leaseSeconds, start, registry.tasks, turns, executed)
        decreases |turns| - executed
      {
        ghost var before := registry.tasks;
        var turn := turns[executed];
        var claimed, lost := WorkerTurn(worker, turn);
        if claimed.None? {
          NothingReadyMeansDone(registry.leaseSeconds, start, registry.tasks, turn.claimAt);
          DoneWithoutFailure(registry.leaseSeconds, registry.tasks, turn.claimAt);
          return NothingLeft, executed;
        }
        TurnKeepsCourse(registry.leaseSeconds, start, before, claimed.value, worker, turns, executed);
        executed := executed + 1;
        if lost {
          return LostLease, executed;
        }
      }
      end := Interrupted;
    }

    /** One turn of a worker's loop. */
    method WorkerTurn(worker: WorkerId, turn: Turn) returns (claimed: Option<TaskId>, lost: bool)
      requires KeyedById(registry.tasks)
      modifies registry
      ensures KeyedById(registry.tasks)
      ensures claimed.None? ==>
                && !lost && registry.tasks == old(registry.tasks)
                && NothingReady(registry.leaseSeconds, registry.tasks, turn.claimAt)
      ensures claimed.Some? ==>
                && IsReady(registry.leaseSeconds, old(registry.tasks), claimed.value, turn.claimAt)
                && registry.tasks == AfterAttempt(registry.leaseSeconds, old(registry.tasks), claimed.value, turn, worker, "completed by " + worker)
                && lost == (turn.executed && !KeptLease(registry.leaseSeconds, turn))
    {
      claimed := ClaimAndExecute(turn, worker);
      if claimed.None? {
        return claimed, false;
      }
      var error := EndExecution(turn, claimed.value, worker, "completed by " + worker, old(registry.tasks));
      lost := turn.executed && error.Some?;
    }

    /** The exec phase with a single worker. When the worker has gone through everything it could, the phase
        moves on if and only if no failed task holds up one that depends on it. */
    method RunExecWithOneWorker(worker: WorkerId, turns: seq<Turn>, turn: Turn)
      returns (end: LoopEnd, error: Option<CoordinatorError>)
      requires Valid() && phases.phase == PhaseExec && !turn.cancelledDuring
      requires DependenciesAreStored(registry.tasks) && IsAcyclic(registry.tasks)
      requires IsTimely(turns) && (turns != [] ==> IsQuietFrom(registry.leaseSeconds, registry.tasks, turns[0].claimAt))
      requires forall k :: 0 <= k < |turns| ==> turns[k].claimAt <= turns[k].finishAt
      modifies registry, phases
      ensures Valid() && SameShape(old(registry.tasks), registry.tasks)
      ensures end == NothingLeft ==>
                && (error.None? <==> !AnyHeldUp(registry.tasks))
                && phases.phase == if AnyHeldUp(registry.tasks) then PhaseExec else PhaseVerify
    {
      var executed;
      end, executed := WorkerLoop(worker, turns);
      if end == NothingLeft {
        TerminalIffNoneHeldUp(registry.leaseSeconds, registry.tasks, turns[executed].claimAt);
      }
      error := LeaveExec(turn.(workersFailed := end != NothingLeft));
    }

    /** Asks the gate and moves on: to complete exactly when every task is completed. */
    method JudgeVerification(turn: Turn, otherwise: string) returns (error: Option<CoordinatorError>)
      requires Valid() && phases.phase != PhaseComplete
      modifies phases
      ensures Valid() && Advanced(phases.maxFixLoops, old(phases.View()), phases.View(), error)
      ensures phases.phase == PhaseComplete ==> AllCompleted(registry.tasks)
      ensures error.None? ==> AllTerminal(registry.tasks) && Judged(phases.maxFixLoops, old(phases.View()), phases.View(), registry.tasks)
      ensures old(phases.phase) == PhaseVerify ==> (error.None? <==> AllTerminal(registry.tasks) && !turn.cancelledDuring)
    {
      var allCompleted := AllTasksCompleted(turn.finishAt);
      error := CheckTransitionGovernance(turn.finishAt, turn.cancelledDuring);
      if error.Some? {
        return;
      }
      if allCompleted {
        error := MoveTo(PhaseComplete, "verification passed");
      } else {
        error := MoveTo(PhaseFix, otherwise);
      }
    }

    method RunVerifyPhase(turn: Turn) returns (error: Option<CoordinatorError>)
      requires Valid() && phases.phase != PhaseComplete
      modifies registry, phases
      ensures Valid() && Advanced(phases.maxFixLoops, old(phases.View()), phases.View(), error)
      ensures phases.phase == PhaseComplete ==> AllCompleted(registry.tasks)
      ensures error.None? ==> Judged(phases.maxFixLoops, old(phases.View()), phases.View(), registry.tasks)
      ensures old(phases.phase) == PhaseVerify ==>
                Verified(registry.leaseSeconds, old(registry.tasks), registry.tasks, turn, error)
    {
      var claimed := ClaimAndExecute(turn, "verifier");
      if claimed.None? {
        error := JudgeVerification(turn, "verification found failures");
        return;
      }
      assert !NothingReady(registry.leaseSeconds, old(registry.tasks), turn.claimAt);
      error := EndExecution(turn, claimed.value, "verifier", VERIFIER_RESULT, old(registry.tasks));
      if !turn.executed {
        error := MoveTo(PhaseFix, "verification failed");
        return;
      }
      if error.Some? {
        return;
      }
      error := JudgeVerification(turn, "verification requires fixes");
    }

    /** Resets the task if it is failed, after some other failed tasks have been reset. */
    method ResetIfFailed(task: TeamTask, ghost before: TaskMap, ghost handled: set<TaskId>) returns (reset: bool)
      requires KeyedById(registry.tasks) && registry.tasks == FailedResetAmong(before, handled)
      requires task.id in before && task.id !in handled && (task.status == Failed <==> before[task.id].status == Failed)
      modifies registry
      ensures KeyedById(registry.tasks) && registry.tasks == FailedResetAmong(before, handled + {task.id})
      ensures reset <==> before[task.id].status == Failed
    {
      ResetOneMore(before, handled, task.id);
      reset := false;
      if task.status == Failed {
        var outcome := registry.ResetFailedTask(task.id);
        reset := outcome == Done;
      }
    }

    /** Resets every failed task to pending and says whether there was one. */
    method ResetFailedTasks(now: int) returns (hasPending: bool)
      requires Valid()
      modifies registry
      ensures Valid() && registry.tasks == FailedReset(old(registry.tasks))
      ensures hasPending <==> exists id :: id in old(registry.tasks) && old(registry.tasks)[id].status == Failed
    {
      ghost var before, handled := registry.tasks, {};
      var list := registry.ListTasks(now);
      hasPending := false;
      for i := 0 to |list|
        invariant Valid() && handled == IdsOf(list, i) && registry.tasks == FailedResetAmong(before, handled)
        invariant hasPending <==> AnyFailed(before, handled)
      {
        OneMoreId(registry.leaseSeconds, before, now, list, i);
        var reset := ResetIfFailed(list[i], before, handled);
        hasPending := hasPending || reset;
        handled := handled + {list[i].id};
      }
      AllIds(registry.leaseSeconds, before, now, list);
    }

    method RunFixPhase(turn: Turn) returns (error: Option<CoordinatorError>)
      requires Valid() && phases.phase != PhaseComplete
      modifies registry, phases
      ensures Valid() && Advanced(phases.maxFixLoops, old(phases.View()), phases.View(), error)
      ensures phases.phase == PhaseComplete ==> AllCompleted(registry.tasks)
      ensures old(phases.phase) == PhaseFix ==> Fixed(old(registry.tasks), registry.tasks, turn, error)
      ensures turn.cancelledDuring ==> error == Some(ContextCancelled) && registry.tasks == old(registry.tasks)
      ensures !turn.cancelledDuring ==>
                && registry.tasks.Keys == old(registry.tasks).Keys
                && forall id :: id in old(registry.tasks) ==>
                     var task := old(registry.tasks)[id];
                     registry.tasks[id] ==
                       if task.status == Failed then task.(status := Pending, claim := None, version := task.version + 1) else task
      ensures error.None? ==>
                if AnyFailed(old(registry.tasks), old(registry.tasks).Keys)
                then WentTo(old(phases.View()), phases.View(), PhaseExec, "fix phase: retrying failed tasks")
                else WentTo(old(phases.View()), phases.View(), PhaseComplete, "no failed tasks to fix")
    {
      if turn.cancelledDuring {
        return Some(ContextCancelled);
      }
      var hasPending := ResetFailedTasks(turn.claimAt);
      if !hasPending {
        NothingToReset(old(registry.tasks));
        error := CompleteUnlessGated(turn);
      } else {
        error := MoveTo(PhaseExec, "fix phase: retrying failed tasks");
      }
    }

    /** Moves to complete when there was nothing to fix. */
    method CompleteUnlessGated(turn: Turn) returns (error: Option<CoordinatorError>)
      requires Valid() && phases.phase != PhaseComplete && !AnyFailed(registry.tasks, registry.tasks.Keys)
      modifies phases
      ensures Valid() && Advanced(phases.maxFixLoops, old(phases.View()), phases.View(), error)
      ensures phases.phase == PhaseComplete ==> AllCompleted(registry.tasks)
      ensures old(phases.phase) == PhaseFix ==> (error.None? <==> AllTerminal(registry.tasks) && !turn.cancelledDuring)
      ensures error.None? ==> WentTo(old(phases.View()), phases.View(), PhaseComplete, "no failed tasks to fix")
    {
      error := CheckTransitionGovernance(turn.finishAt, turn.cancelledDuring);
      if error.Some? {
        return;
      }
      error := MoveTo(PhaseComplete, "no failed tasks to fix");
    }

    method RunPhase(turn: Turn) returns (error: Option<CoordinatorError>)
      requires Valid() && !IsTerminal(phases.phase)
      modifies registry, phases
      ensures Valid() && Advanced(phases.maxFixLoops, old(phases.View()), phases.View(), error)
      ensures phases.phase == PhaseComplete ==> AllCompleted(registry.tasks)
      ensures error.None? ==> phases.phase == NextPhase(phases.maxFixLoops, old(phases.View()), old(registry.tasks), registry.tasks)
      ensures Ran(registry.leaseSeconds, turn, old(phases.phase), old(registry.tasks), registry.tasks, error)
    {
      match phases.phase
      case PhasePlan => error := RunWorkerPhase(turn, PhasePRD, "planning complete");
      case PhasePRD => error := RunWorkerPhase(turn, PhaseExec, "prd complete");
      case PhaseExec => error := RunExecPhase(turn);
      case PhaseVerify => error := RunVerifyPhase(turn);
      case PhaseFix => error := RunFixPhase(turn);
    }

    /** Recovers orphaned tasks and creates the given ones; only a task without an id is refused. */
    method Prepare(created: seq<(TaskId, seq<TaskId>)>, alive: set<WorkerId>, startAt: int)
      returns (error: Option<CoordinatorError>)
      requires Valid()
      modifies registry
      ensures Valid()
      ensures error == if AllNamed(created) then None else Some(TaskFailure(IdRequired))
      ensures error.None? ==> registry.tasks == Prepared(registry.leaseSeconds, old(registry.tasks), created, alive, startAt)
    {
      registry.RecoverOrphans(alive, startAt);
      error := CreateAll(created);
    }

    method CreateAll(created: seq<(TaskId, seq<TaskId>)>) returns (error: Option<CoordinatorError>)
      requires KeyedById(registry.tasks)
      modifies registry
      ensures KeyedById(registry.tasks)
      ensures error == if AllNamed(created) then None else Some(TaskFailure(IdRequired))
      ensures error.None? ==> registry.tasks == AfterCalls(registry.leaseSeconds, old(registry.tasks), Creations(created))
    {
      ghost var calls := Creations(created);
      for i := 0 to |created|
        invariant KeyedById(registry.tasks) && forall k :: 0 <= k < i ==> created[k].0 != ""
        invariant registry.tasks == AfterCalls(registry.leaseSeconds, old(registry.tasks), calls[..i])
      {
        OneMoreCall(registry.leaseSeconds, old(registry.tasks), calls, i);
        assert calls[i] == Create(created[i].0, created[i].1);
        var outcome := registry.CreateTask(created[i].0, created[i].1);
        if outcome.Rejected? {
          return Some(TaskFailure(outcome.error));
        }
      }
      assert calls[..|calls|] == calls;
      error := None;
    }

    /** A phase body and, when it fails in a live context, the request for the failed phase. */
    method RunBody(turn: Turn) returns (error: Option<CoordinatorError>)
      requires Valid() && !IsTerminal(phases.phase) && !turn.cancelledBefore
      modifies registry, phases
      ensures Valid()
      ensures phases.phase == PhaseComplete ==> AllCompleted(registry.tasks)
      ensures error.None? ==>
                && Measure(phases.maxFixLoops, phases.View()) < Measure(phases.maxFixLoops, old(phases.View()))
                && Passes(registry.leaseSeconds, phases.maxFixLoops, turn, old(Now()), Now())
      ensures error.Some? ==> Fails(registry.leaseSeconds, turn, old(Now()), Now(), error)
    {
      error := RunPhase(turn);
      if error.Some? {
        ghost var failure := error.value;
        if turn.cancelledDuring {
          error := Some(ContextCancelled);
        } else {
          var refused := MoveTo(PhaseFailed, "phase execution failed");
        }
        FailsWith(registry.leaseSeconds, turn, old(Now()), Now(), failure);
      }
    }

    /** The coordination loop, with the moments it passes through.

        It always ends: no more phase bodies run than the phase measure allows, whatever the environment
        does.  If it drove the team to complete then every task is completed.

        It succeeds if and only if it gets to a terminal phase without being cancelled.  When a phase body
        fails, the team ends up in failed if and only if the context is live and the phase was verify or
        fix; otherwise it stays in the phase whose body failed.  In particular a failing first task leaves
        it in plan.  When nothing goes wrong, four bodies take it from plan to complete. */
    method Run(created: seq<(TaskId, seq<TaskId>)>, alive: set<WorkerId>, startAt: int, turns: nat -> Turn)
      returns (bodies: nat, error: Option<CoordinatorError>, ghost trail: seq<Moment>)
      requires Valid()
      modifies registry, phases
      ensures Valid()
      ensures bodies <= Measure(phases.maxFixLoops, old(phases.View()))
      ensures phases.phase == PhaseComplete && old(phases.phase) != PhaseComplete ==> AllCompleted(registry.tasks)
      ensures !AllNamed(created) ==> error == Some(TaskFailure(IdRequired)) && phases.View() == old(phases.View())
      ensures AllNamed(created) ==>
                && IsTrail(registry.leaseSeconds, phases.maxFixLoops, turns, trail)
                && trail[0] == Moment(old(phases.View()), Prepared(registry.leaseSeconds, old(registry.tasks), created, alive, startAt))
                && Concludes(registry.leaseSeconds, phases.maxFixLoops, turns, trail, bodies, Now(), error)
      ensures AllNamed(created) && FirstTaskFails(registry.leaseSeconds, trail[0], turns(0)) ==>
                && phases.phase == PhasePlan
                && error == Some(if turns(0).cancelledDuring then ContextCancelled else ExecutionFailed)
      ensures AllNamed(created) && IsSmoothRun(registry.leaseSeconds, trail[0], turns) ==>
                error.None? && bodies == 4 && phases.phase == PhaseComplete && AllCompleted(registry.tasks)
    {
      bodies, trail := 0, [];
      error := Prepare(created, alive, startAt);
      if error.Some? {
        return;
      }
      bodies, error, trail := Coordinate(turns);
      if FirstTaskFails(registry.leaseSeconds, trail[0], turns(0)) {
        FirstFailureEndsInPlan(registry.leaseSeconds, phases.maxFixLoops, turns, trail, Now(), error);
      }
      if IsSmoothRun(registry.leaseSeconds, trail[0], turns) {
        SmoothRunCompletes(registry.leaseSeconds, phases.maxFixLoops, turns, trail, Now(), error);
      }
    }

    /** The loop itself, on the tasks that are stored when it begins. */
    method Coordinate(turns: nat -> Turn)
      returns (bodies: nat, error: Option<CoordinatorError>, ghost trail: seq<Moment>)
      requires Valid()
      modifies registry, phases
      ensures Valid()
      ensures bodies <= Measure(phases.maxFixLoops, old(phases.View()))
      ensures phases.phase == PhaseComplete && old(phases.phase) != PhaseComplete ==> AllCompleted(registry.tasks)
      ensures IsTrail(registry.leaseSeconds, phases.maxFixLoops, turns, trail) && trail[0] == old(Now())
      ensures Concludes(registry.leaseSeconds, phases.maxFixLoops, turns, trail, bodies, Now(), error)
    {
      bodies, trail := 0, [Now()];
      ghost var began := phases.View();
      while true
        invariant Valid()
        invariant phases.phase == PhaseComplete && began.phase != PhaseComplete ==> AllCompleted(registry.tasks)
        invariant bodies + Measure(phases.maxFixLoops, phases.View()) <= Measure(phases.maxFixLoops, began)
        invariant IsTrail(registry.leaseSeconds, phases.maxFixLoops, turns, trail)
        invariant |trail| == bodies + 1 && trail[0] == old(Now()) && trail[bodies] == Now()
        decreases Measure(phases.maxFixLoops, phases.View())
      {
        var done, ran;
        done, ran, error := TakeTurn(turns(bodies));
        bodies := bodies + if ran then 1 else 0;
        if done {
          return;
        }
        TrailGrows(registry.leaseSeconds, phases.maxFixLoops, turns, trail, Now());
        trail := trail + [Now()];
      }
    }

    /** One turn of the loop: the run ends, or one phase body succeeds. */
    method TakeTurn(turn: Turn) returns (done: bool, ran: bool, error: Option<CoordinatorError>)
      requires Valid()
      modifies registry, phases
      ensures Valid()
      ensures phases.phase == PhaseComplete && old(phases.phase) != PhaseComplete ==> AllCompleted(registry.tasks)
      ensures phases.phase == PhaseComplete && old(phases.phase) == PhaseComplete ==> registry.tasks == old(registry.tasks)
      ensures ran == (!turn.cancelledBefore && !IsTerminal(old(phases.phase)))
      ensures ran ==> Measure(phases.maxFixLoops, old(phases.View())) > 0
      ensures if done then EndsWith(registry.leaseSeconds, phases.maxFixLoops, turn, old(Now()), Now(), error)
              else && ran && Passes(registry.leaseSeconds, phases.maxFixLoops, turn, old(Now()), Now())
                   && Measure(phases.maxFixLoops, phases.View()) < Measure(phases.maxFixLoops, old(phases.View()))
    {
      if turn.cancelledBefore {
        var refused := MoveTo(PhaseCancelled, "context cancelled");
        return true, false, Some(ContextCancelled);
      }
      if IsTerminal(phases.phase) {
        return true, false, None;
      }
      error := RunBody(turn);
      done, ran := error.Some?, true;
    }
  }

  /** A new team whose only task fails to execute is left in plan, not in failed. */
  method FailingTaskLeavesPlan() returns (phase: TeamPhase, error: Option<CoordinatorError>)
    ensures phase == PhasePlan && error == Some(ExecutionFailed)
  {
    var registry := new TaskRegistry(60);
    var phases := new PhaseMachine(3);
    var coordinator := new Coordinator(registry, phases, 1);
    var turn := Turn(false, false, 0, [], 0, "token", false, tasks => [], false);
    var created := [("a", [])];
    ghost var start := PreparedTask();
    assert IsReady(60, start, "a", 0);
    var bodies;
    ghost var trail;
    bodies, error, trail := coordinator.Run(created, {}, 0, n => turn);
    phase := phases.phase;
  }

  /** A worker that claims and completes the task "a" as it finds it. */
  function OneWorker(tasks: TaskMap): seq<Op> {
    if "a" in tasks then [Claim("a", "w", tasks["a"].version, "t", 0, 0), Complete("a", "t", "done", 0)] else []
  }

  lemma OneWorkerIsEnough(start: TaskMap, tasks: TaskMap, turn: Turn)
    requires start == map["a" := TeamTask("a", Pending, [], None, 1, "")] && turn.workers == OneWorker
    requires SameShape(start, tasks) && IsIdle(tasks)
    ensures AllCompleted(AfterWorkers(60, tasks, turn))
  {
    var calls := OneWorker(tasks);
    var claimed := Apply(60, tasks, calls[0]);
    assert calls[..0] == [] && AfterCalls(60, tasks, calls[..0]) == tasks;
    OneMoreCall(60, tasks, calls, 0);
    OneMoreCall(60, tasks, calls, 1);
    assert calls[..2] == calls;
    assert forall id :: id in Apply(60, claimed, calls[1]) ==> id == "a";
  }

  /** Such runs exist: a new team with one task gets to complete. */
  method OneTaskTeamCompletes() returns (phase: TeamPhase, error: Option<CoordinatorError>)
    ensures phase == PhaseComplete && error.None?
  {
    var registry := new TaskRegistry(60);
    var phases := new PhaseMachine(3);
    var coordinator := new Coordinator(registry, phases, 1);
    var turn := Turn(false, false, 0, [], 0, "token", true, OneWorker, false);
    var created := [("a", [])];
    ghost var start := PreparedTask();
    forall tasks | SameShape(start, tasks) && IsIdle(tasks) ensures AllCompleted(AfterWorkers(60, tasks, turn)) {
      OneWorkerIsEnough(start, tasks, turn);
    }
    assert IsSmooth(60, start, turn);
    var bodies;
    ghost var trail;
    bodies, error, trail := coordinator.Run(created, {}, 0, n => turn);
    phase := phases.phase;
  }

  lemma PreparedTask() returns (start: TaskMap)
    ensures start == Prepared(60, map[], [("a", [])], {}, 0) == map["a" := TeamTask("a", Pending, [], None, 1, "")]
  {
    start := Prepared(60, map[], [("a", [])], {}, 0);
    assert Creations([("a", [])]) == [Create("a", [])] && Creations([("a", [])])[..0] == [];
  }

  /** Two tasks, the second of which depends on the first. */
  function TwoTasks(): TaskMap {
    map["a" := TeamTask("a", Pending, [], None, 1, ""), "b" := TeamTask("b", Pending, ["a"], None, 1, "")]
  }

  lemma OnlyFirstIsReady(tasks: TaskMap)
    requires tasks == TwoTasks()
    ensures IsReady(60, tasks, "a", 0) && forall id :: IsReady(60, tasks, id, 0) ==> id == "a"
  {
    assert tasks["b"].dependsOn[0] == "a" && !IsCompleted(tasks, "a");
  }

  method TeamInExec() returns (coordinator: Coordinator)
    ensures fresh(coordinator) && fresh(coordinator.registry) && fresh(coordinator.phases) && coordinator.Valid()
    ensures coordinator.phases.phase == PhaseExec && coordinator.registry.leaseSeconds == 60
    ensures coordinator.registry.tasks == TwoTasks()
  {
    var registry := new TaskRegistry(60);
    var made := registry.CreateTask("a", []);
    made := registry.CreateTask("b", ["a"]);
    assert registry.tasks == TwoTasks();
    var phases := new PhaseMachine(3);
    coordinator := new Coordinator(registry, phases, 1);
    var refused := coordinator.MoveTo(PhasePRD, "");
    assert phases.phase == PhasePRD;
    refused := coordinator.MoveTo(PhaseExec, "");
  }

  /** A team in exec with two such tasks: when the first fails, the worker has nothing left to do, the gate
      refuses to go on to verify, and the team stays in exec. */
  method FailedTaskHoldsUpExec() returns (phase: TeamPhase, error: Option<CoordinatorError>)
    ensures phase == PhaseExec && error.Some?
  {
    var coordinator := TeamInExec();
    var turn := Turn(false, false, 0, [], 0, "token", false, tasks => [], false);
    OnlyFirstIsReady(coordinator.registry.tasks);
    var claimed, lost := coordinator.WorkerTurn("w", turn);
    assert claimed == Some("a");
    AttemptSettles(60, TwoTasks(), "a", turn, "w", "completed by " + "w");
    assert coordinator.registry.tasks["b"] == TwoTasks()["b"];
    error := coordinator.LeaveExec(turn);
    phase := coordinator.phases.phase;
  }
}
