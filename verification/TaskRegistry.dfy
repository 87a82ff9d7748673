/** The task registry as the program has it: an object whose methods read, decide and rewrite
    one record under the store mutex.  Each method is proved against the step of TaskModel
    that specifies it, so what TaskRuns proves of every sequence of steps holds of every
    interleaving of calls.
 */
module TaskRegistries {
  import opened Options
  import opened TaskModel

  class TaskRegistry {
    const leaseSeconds: int
    var tasks: TaskMap

    constructor (leaseSeconds: int)
      ensures this.leaseSeconds == leaseSeconds && tasks == map[]
    {
      this.leaseSeconds := leaseSeconds;
      tasks := map[];
    }

    method CreateTask(id: TaskId, dependsOn: seq<TaskId>) returns (outcome: Outcome)
      modifies this
      ensures outcome == Report(leaseSeconds, old(tasks), Create(id, dependsOn))
      ensures tasks == Apply(leaseSeconds, old(tasks), Create(id, dependsOn))
    {
      if id == "" {
        return Rejected(IdRequired);
      }
      tasks := tasks[id := TeamTask(id, Pending, dependsOn, None, 1, "")];
      outcome := Done;
    }

    /** Every record as a reader sees it at `now`, in some order. */
    method ListTasks(now: int) returns (list: seq<TeamTask>)
      requires KeyedById(tasks)
      ensures Lists(leaseSeconds, tasks, now, list)
    {
      list := [];
      var rest := tasks.Keys;
      while rest != {}
        invariant rest <= tasks.Keys
        invariant forall i :: 0 <= i < |list| ==>
          list[i].id in tasks.Keys - rest && list[i] == Effective(leaseSeconds, tasks[list[i].id], now)
        invariant forall i, j :: 0 <= i < j < |list| ==> list[i].id != list[j].id
        invariant forall id {:trigger IsListed(list, id)} :: id in tasks.Keys - rest ==> IsListed(list, id)
      {
        var id :| id in rest;
        ghost var shorter := list;
        list := list + [Effective(leaseSeconds, tasks[id], now)];
        rest := rest - {id};
        assert list[|shorter|].id == id;
        forall other | other in tasks.Keys - rest ensures IsListed(list, other) {
          if other != id {
            assert IsListed(shorter, other);
            var k :| 0 <= k < |shorter| && shorter[k].id == other;
            assert list[k].id == other;
          }
        }
      }
    }

    method DependenciesBlock(dependsOn: seq<TaskId>, now: int) returns (blocked: bool)
      ensures blocked == IsBlocked(tasks, dependsOn)
    {
      for i := 0 to |dependsOn|
        invariant forall k :: 0 <= k < i ==> IsCompleted(tasks, dependsOn[k])
      {
        if dependsOn[i] !in tasks || Effective(leaseSeconds, tasks[dependsOn[i]], now).status != Completed {
          assert !IsCompleted(tasks, dependsOn[i]);
          return true;
        }
      }
      blocked := false;
    }

    method ClaimTask(id: TaskId, worker: WorkerId, expectedVersion: int, token: Token, checkAt: int, stampAt: int)
      returns (outcome: Outcome)
      modifies this
      ensures outcome == Report(leaseSeconds, old(tasks), Claim(id, worker, expectedVersion, token, checkAt, stampAt))
      ensures tasks == Apply(leaseSeconds, old(tasks), Claim(id, worker, expectedVersion, token, checkAt, stampAt))
    {
      if id !in tasks {
        return Rejected(NotFound);
      }
      var task := Effective(leaseSeconds, tasks[id], checkAt);
      if task.version != expectedVersion {
        return Rejected(VersionConflict);
      }
      if task.status != Pending {
        return Rejected(NotClaimable);
      }
      var blocked := DependenciesBlock(task.dependsOn, checkAt);
      if blocked {
        return Rejected(DependencyBlocked);
      }
      task := task.(status := InProgress, claim := Some(TaskClaim(worker, token, stampAt)), version := task.version + 1);
      tasks := tasks[id := task];
      outcome := Done;
    }

    /** Reads a record and checks the caller's token against its live claim. */
    method Authenticate(id: TaskId, token: Token, checkAt: int) returns (refusal: Option<TaskError>)
      ensures refusal == Refusal(leaseSeconds, tasks, Release(id, token, checkAt))
      ensures refusal.None? ==> id in tasks && tasks[id].claim.Some? && !LeaseExpired(leaseSeconds, tasks[id], checkAt)
    {
      if id !in tasks {
        return Some(NotFound);
      }
      var task := Effective(leaseSeconds, tasks[id], checkAt);
      if task.claim.None? || task.claim.value.token != token {
        return Some(InvalidClaim);
      }
      refusal := None;
    }

    method RenewLease(id: TaskId, token: Token, checkAt: int, stampAt: int) returns (outcome: Outcome)
      modifies this
      ensures outcome == Report(leaseSeconds, old(tasks), Renew(id, token, checkAt, stampAt))
      ensures tasks == Apply(leaseSeconds, old(tasks), Renew(id, token, checkAt, stampAt))
    {
      var refusal := Authenticate(id, token, checkAt);
      if refusal.Some? {
        return Rejected(refusal.value);
      }
      var task := tasks[id];
      task := task.(claim := Some(task.claim.value.(leasedAt := stampAt)), version := task.version + 1);
      tasks := tasks[id := task];
      outcome := Done;
    }

    /** The renewal loop that runs while a claimed task executes; it gives up at the first refusal. */
    method RenewWhileExecuting(id: TaskId, token: Token, ticks: seq<(int, int)>) returns (renewed: nat)
      requires id in tasks && tasks[id].status == InProgress && tasks[id].claim.Some? && tasks[id].claim.value.token == token
      modifies this
      ensures renewed == RenewedCount(leaseSeconds, old(tasks)[id].claim.value.leasedAt, ticks)
      ensures tasks == old(tasks)[id := AfterRenewals(old(tasks)[id], ticks[..renewed])]
    {
      renewed := 0;
      ghost var task := tasks[id];
      assert tasks == tasks[id := AfterRenewals(task, [])];
      while renewed < |ticks|
        invariant renewed <= |ticks| && tasks == old(tasks)[id := AfterRenewals(task, ticks[..renewed])]
        invariant RenewedCount(leaseSeconds, task.claim.value.leasedAt, ticks)
                  == renewed + RenewedCount(leaseSeconds, tasks[id].claim.value.leasedAt, ticks[renewed..])
      {
        var outcome := RenewLease(id, token, ticks[renewed].0, ticks[renewed].1);
        if outcome.Rejected? {
          return;
        }
        assert ticks[renewed..][1..] == ticks[renewed + 1..];
        renewed := renewed + 1;
      }
    }

    method CompleteTask(id: TaskId, token: Token, result: string, checkAt: int) returns (outcome: Outcome)
      modifies this
      ensures outcome == Report(leaseSeconds, old(tasks), Complete(id, token, result, checkAt))
      ensures tasks == Apply(leaseSeconds, old(tasks), Complete(id, token, result, checkAt))
    {
      var refusal := Authenticate(id, token, checkAt);
      if refusal.Some? {
        return Rejected(refusal.value);
      }
      var task := tasks[id];
      tasks := tasks[id := task.(status := Completed, result := result, claim := None, version := task.version + 1)];
      outcome := Done;
    }

    method FailTask(id: TaskId, token: Token, reason: string, checkAt: int) returns (outcome: Outcome)
      modifies this
      ensures outcome == Report(leaseSeconds, old(tasks), Fail(id, token, reason, checkAt))
      ensures tasks == Apply(leaseSeconds, old(tasks), Fail(id, token, reason, checkAt))
    {
      var refusal := Authenticate(id, token, checkAt);
      if refusal.Some? {
        return Rejected(refusal.value);
      }
      var task := tasks[id];
      tasks := tasks[id := task.(status := Failed, result := reason, claim := None, version := task.version + 1)];
      outcome := Done;
    }

    method ReleaseTask(id: TaskId, token: Token, checkAt: int) returns (outcome: Outcome)
      modifies this
      ensures outcome == Report(leaseSeconds, old(tasks), Release(id, token, checkAt))
      ensures tasks == Apply(leaseSeconds, old(tasks), Release(id, token, checkAt))
    {
      var refusal := Authenticate(id, token, checkAt);
      if refusal.Some? {
        return Rejected(refusal.value);
      }
      var task := tasks[id];
      tasks := tasks[id := task.(status := Pending, claim := None, version := task.version + 1)];
      outcome := Done;
    }

    method ResetFailedTask(id: TaskId) returns (outcome: Outcome)
      modifies this
      ensures outcome == Report(leaseSeconds, old(tasks), Reset(id))
      ensures tasks == Apply(leaseSeconds, old(tasks), Reset(id))
    {
      if id !in tasks {
        return Rejected(NotFound);
      }
      var task := tasks[id];
      if task.status != Failed {
        return NothingToDo;
      }
      tasks := tasks[id := task.(status := Pending, claim := None, version := task.version + 1)];
      outcome := Done;
    }

    /** Claims the first listed task that is pending and not blocked.  Nothing else runs between
        the listing and the claim, so "not claimable" means that every pending task is blocked. */
    method ClaimNextTask(worker: WorkerId, token: Token, listAt: int, checkAt: int, stampAt: int)
      returns (claimed: Option<TaskId>)
      requires KeyedById(tasks) && listAt <= checkAt
      modifies this
      ensures claimed.None? ==> tasks == old(tasks) && forall id :: !IsReady(leaseSeconds, tasks, id, listAt)
      ensures claimed.Some? ==>
                && IsReady(leaseSeconds, old(tasks), claimed.value, listAt)
                && var claim := Claim(claimed.value, worker, old(tasks)[claimed.value].version, token, checkAt, stampAt);
                && Report(leaseSeconds, old(tasks), claim) == Done
                && tasks == Apply(leaseSeconds, old(tasks), claim)
    {
      var list := ListTasks(listAt);
      for i := 0 to |list|
        invariant tasks == old(tasks)
        invariant forall k :: 0 <= k < i ==> !IsReady(leaseSeconds, tasks, list[k].id, listAt)
      {
        var task := list[i];
        if task.status == Pending {
          var outcome := ClaimTask(task.id, worker, task.version, token, checkAt, stampAt);
          if outcome == Done {
            return Some(task.id);
          }
        }
      }
      forall id | id in tasks ensures !IsReady(leaseSeconds, tasks, id, listAt) {
        assert IsListed(list, id);
      }
      claimed := None;
    }

    /** Any one call, as one of several concurrent callers may make it. */
    method Perform(op: Op) returns (outcome: Outcome)
      requires KeyedById(tasks)
      modifies this
      ensures outcome == Report(leaseSeconds, old(tasks), op)
      ensures tasks == Apply(leaseSeconds, old(tasks), op) && KeyedById(tasks)
    {
      match op
      case Create(id, dependsOn) => outcome := CreateTask(id, dependsOn);
      case Claim(id, worker, version, token, checkAt, stampAt) =>
        outcome := ClaimTask(id, worker, version, token, checkAt, stampAt);
      case Renew(id, token, checkAt, stampAt) => outcome := RenewLease(id, token, checkAt, stampAt);
      case Complete(id, token, result, checkAt) => outcome := CompleteTask(id, token, result, checkAt);
      case Fail(id, token, result, checkAt) => outcome := FailTask(id, token, result, checkAt);
      case Release(id, token, checkAt) => outcome := ReleaseTask(id, token, checkAt);
      case Reset(id) => outcome := ResetFailedTask(id);
      case Recover(alive, checkAt) =>
        RecoverOrphans(alive, checkAt);
        outcome := Done;
    }

    /** Startup recovery: the claims of workers without a live heartbeat are given up. */
    method RecoverOrphans(alive: set<WorkerId>, now: int)
      requires KeyedById(tasks)
      modifies this
      ensures tasks == Apply(leaseSeconds, old(tasks), Recover(alive, now))
      ensures forall id :: id in old(tasks) ==>
                var task := old(tasks)[id];
                id in tasks && tasks[id] ==
                  if task.status == InProgress && task.claim.Some? && task.claim.value.worker !in alive
                     && (leaseSeconds <= 0 || now - task.claim.value.leasedAt <= leaseSeconds * 1_000_000_000)
                  then task.(status := Pending, claim := None, version := task.version + 1) else task
    {
      ghost var before, want := tasks, Recovered(leaseSeconds, tasks, alive, now);
      var list := ListTasks(now);
      for i := 0 to |list|
        invariant tasks.Keys == before.Keys
        invariant forall k :: i <= k < |list| ==> tasks[list[k].id] == before[list[k].id]
        invariant forall k :: 0 <= k < i ==> tasks[list[k].id] == want[list[k].id]
      {
        var task := list[i];
        assert task.status == InProgress ==> task == before[task.id];
        if task.status == InProgress && task.claim.Some? && task.claim.value.worker !in alive {
          tasks := tasks[task.id := task.(status := Pending, claim := None, version := task.version + 1)];
        }
        assert tasks[task.id] == want[task.id];
      }
      forall id | id in before ensures tasks[id] == want[id] {
        assert IsListed(list, id);
      }
    }
  }

  /** The task could be claimed by a caller that sees the store at `now`. */
  ghost predicate IsReady(leaseSeconds: int, tasks: TaskMap, id: TaskId, now: int) {
    && id in tasks
    && Effective(leaseSeconds, tasks[id], now).status == Pending
    && !IsBlocked(tasks, tasks[id].dependsOn)
  }

  ghost predicate KeyedById(tasks: TaskMap) {
    forall id :: id in tasks ==> tasks[id].id == id
  }

  /** `list` holds the effective form of every record of `tasks` exactly once. */
  ghost predicate Lists(leaseSeconds: int, tasks: TaskMap, now: int, list: seq<TeamTask>) {
    && (forall i :: 0 <= i < |list| ==> list[i].id in tasks && list[i] == Effective(leaseSeconds, tasks[list[i].id], now))
    && (forall i, j :: 0 <= i < j < |list| ==> list[i].id != list[j].id)
    && (forall id {:trigger IsListed(list, id)} :: id in tasks ==> IsListed(list, id))
  }

  ghost predicate IsListed(list: seq<TeamTask>, id: TaskId) {
    exists k :: 0 <= k < |list| && list[k].id == id
  }
}
