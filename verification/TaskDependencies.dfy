/** Dependency order over whole runs, and progress on acyclic dependencies
    (internal/team/tasks.go:132-173, 305-395; internal/team/coordinator.go:406-489). */
module TaskDependencies {
  import opened Options
  import opened TaskModel
  import opened TaskRuns
  import opened TaskRegistries

  ghost predicate DependsOn(tasks: TaskMap, id: TaskId, d: TaskId) {
    id in tasks && d in tasks[id].dependsOn
  }

  /** `path` follows dependencies from task to task. */
  ghost predicate IsDependencyPath(tasks: TaskMap, path: seq<TaskId>) {
    && path != []
    && forall k, next :: 0 <= k < next < |path| && next == k + 1 ==> DependsOn(tasks, path[k], path[next])
  }

  ghost predicate IsCycle(tasks: TaskMap, path: seq<TaskId>) {
    IsDependencyPath(tasks, path) && |path| >= 2 && path[|path| - 1] == path[0]
  }

  /** Every stored member of `ids` depends on a member of `ids`. */
  ghost predicate IsKnot(tasks: TaskMap, ids: set<TaskId>) {
    forall id {:trigger WaitsFor(tasks, id, ids)} :: id in ids && id in tasks ==> WaitsFor(tasks, id, ids)
  }

  ghost predicate WaitsFor(tasks: TaskMap, id: TaskId, ids: set<TaskId>) {
    exists d :: DependsOn(tasks, id, d) && d in ids
  }

  // ---------------------------------------------------------------------------------------------
  // Dependencies come first
  // ---------------------------------------------------------------------------------------------

  ghost predicate AreCompleted(tasks: TaskMap, ids: seq<TaskId>) {
    forall d :: d in ids ==> IsCompleted(tasks, d)
  }

  /** A task that is not pending was claimed when all its dependencies were completed, and neither it
      nor its dependency list has been replaced since. */
  lemma {:induction false} DependenciesCompleteFirst(run: Run, i: nat, id: TaskId) returns (c: nat)
    requires i <= |run.ops| && id in run.StateAt(i) && run.StateAt(i)[id].status != Pending
    ensures c < i && run.Takes(c, id) && run.NotCreated(id, c, i)
    ensures run.StateAt(c)[id].dependsOn == run.StateAt(i)[id].dependsOn
    ensures AreCompleted(run.StateAt(c), run.StateAt(i)[id].dependsOn)
  {
    var m: nat := i - 1;
    if run.Takes(m, id) {
      c := m;
    } else {
      StartedBefore(run, m, id);
      c := DependenciesCompleteFirst(run, m, id);
    }
  }

  lemma StartedBefore(run: Run, m: nat, id: TaskId)
    requires m < |run.ops| && id in run.StateAt(m + 1) && run.StateAt(m + 1)[id].status != Pending && !run.Takes(m, id)
    ensures !run.Creates(m, id) && id in run.StateAt(m) && run.StateAt(m)[id].status != Pending
    ensures run.StateAt(m)[id].dependsOn == run.StateAt(m + 1)[id].dependsOn
  {
    if id in run.StateAt(m) {
      ClaimIffInProgress(run, m, id);
    }
  }

  /** Since it was claimed, a dependency of the task was completed again after call `m` created it. */
  ghost predicate CompletedAgain(run: Run, d: TaskId, m: nat, i: nat)
    requires i <= |run.ops|
  {
    exists k: nat :: m < k && run.CompletedSince(d, k, i)
  }

  /** All dependencies of a task that is not pending are completed if and only if each one that was
      created again after the task was claimed has been completed again since. In particular they all
      are when no dependency is created twice. */
  lemma DependenciesHoldIff(run: Run, i: nat, id: TaskId) returns (c: nat)
    requires i <= |run.ops| && id in run.StateAt(i) && run.StateAt(i)[id].status != Pending
    ensures c < i && run.Takes(c, id)
    ensures AreCompleted(run.StateAt(i), run.StateAt(i)[id].dependsOn) <==>
            forall d, m: nat ::
              d in run.StateAt(i)[id].dependsOn && c <= m < i && run.Creates(m, d) ==> CompletedAgain(run, d, m, i)
  {
    c := DependenciesCompleteFirst(run, i, id);
    forall d | d in run.StateAt(i)[id].dependsOn
      ensures IsCompleted(run.StateAt(i), d) <==> forall m: nat :: c <= m < i && run.Creates(m, d) ==> CompletedAgain(run, d, m, i)
    {
      DependencyHoldsIff(run, c, i, d);
    }
  }

  lemma DependencyHoldsIff(run: Run, c: nat, i: nat, d: TaskId)
    requires c <= i <= |run.ops| && IsCompleted(run.StateAt(c), d)
    ensures IsCompleted(run.StateAt(i), d) <==> forall m: nat :: c <= m < i && run.Creates(m, d) ==> CompletedAgain(run, d, m, i)
  {
    CompletedIff(run, i, d);
    if k: nat :| run.CompletedSince(d, k, i) {
      forall m: nat | c <= m < i && run.Creates(m, d) ensures CompletedAgain(run, d, m, i) {
        assert m < k;
      }
    }
    if run.NotCreated(d, c, i) {
      VersionsNeverFall(run, c, i, d);
    }
  }

  /** Creating a completed dependency again leaves a task in progress over a pending dependency. */
  lemma RecreateUndoesDependency()
    ensures exists run: Run ::
              && |run.ops| == 6 && "a" in run.StateAt(6) && run.StateAt(6)["a"].status == InProgress
              && run.StateAt(6)["a"].dependsOn == ["d"] && !IsCompleted(run.StateAt(6), "d")
  {
    var d, a := TeamTask("d", Pending, [], None, 1, ""), TeamTask("a", Pending, ["d"], None, 1, "");
    var run := Run(60, [
      Create("d", []), Claim("d", "w", 1, "t", 0, 0), Complete("d", "t", "", 0),
      Create("a", ["d"]), Claim("a", "w", 1, "u", 0, 0), Create("d", [])]);
    assert run.StateAt(1) == map["d" := d];
    assert run.StateAt(2) == map["d" := Claimed(d, "w", "t", 0)];
    assert run.StateAt(3) == map["d" := Unclaimed(Claimed(d, "w", "t", 0), Completed)];
    assert run.StateAt(4) == run.StateAt(3)["a" := a];
    assert run.StateAt(5) == run.StateAt(4)["a" := Claimed(a, "w", "u", 0)];
    assert run.StateAt(6) == run.StateAt(5)["d" := d];
  }

  // ---------------------------------------------------------------------------------------------
  // Tasks that never run
  // ---------------------------------------------------------------------------------------------

  /** A call that starts a task finds its dependencies completed. */
  lemma BlockedStaysPending(leaseSeconds: int, tasks: TaskMap, op: Op, id: TaskId, d: TaskId)
    requires id in Apply(leaseSeconds, tasks, op) && d in Apply(leaseSeconds, tasks, op)[id].dependsOn
    requires !IsCompleted(tasks, d)
    requires id in tasks ==> tasks[id].status == Pending && tasks[id].claim.None?
    ensures Apply(leaseSeconds, tasks, op)[id].status == Pending
  {
  }

  ghost predicate DependsInside(dependsOn: seq<TaskId>, ids: set<TaskId>) {
    exists d :: d in dependsOn && d in ids
  }

  /** Call `i`, if it creates a member of `ids`, makes it depend on a member of `ids`. */
  ghost predicate IsKnottedAt(run: Run, i: nat, ids: set<TaskId>)
    requires i < |run.ops|
  {
    run.ops[i].Create? && run.DoneAt(i) && run.ops[i].id in ids ==> DependsInside(run.ops[i].dependsOn, ids)
  }

  ghost predicate IsKnotted(run: Run, ids: set<TaskId>) {
    forall i: nat {:trigger IsKnottedAt(run, i, ids)} :: i < |run.ops| ==> IsKnottedAt(run, i, ids)
  }

  ghost predicate IsStuck(tasks: TaskMap, ids: set<TaskId>) {
    forall id :: id in ids && id in tasks ==> tasks[id].status == Pending && DependsInside(tasks[id].dependsOn, ids)
  }

  /** Tasks that are only ever created to depend on one another stay pending throughout the run,
      however often they are created. */
  lemma {:induction false} KnotStaysPending(run: Run, i: nat, ids: set<TaskId>)
    requires i <= |run.ops| && IsKnotted(run, ids)
    ensures IsStuck(run.StateAt(i), ids)
  {
    if i > 0 {
      KnotStaysPending(run, i - 1, ids);
      KnotStepStaysPending(run, i - 1, ids, run.StateAt(i));
    }
  }

  lemma KnotStepStaysPending(run: Run, i: nat, ids: set<TaskId>, after: TaskMap)
    requires i < |run.ops| && IsKnotted(run, ids)
    requires IsStuck(run.StateAt(i), ids) && after == run.StateAt(i + 1)
    ensures IsStuck(after, ids)
  {
    forall id | id in ids && id in after
      ensures after[id].status == Pending && DependsInside(after[id].dependsOn, ids)
    {
      KnotMemberStaysPending(run, i, ids, id);
    }
  }

  lemma KnotMemberStaysPending(run: Run, i: nat, ids: set<TaskId>, id: TaskId)
    requires i < |run.ops| && IsKnotted(run, ids)
    requires IsStuck(run.StateAt(i), ids) && id in ids && id in run.StateAt(i + 1)
    ensures run.StateAt(i + 1)[id].status == Pending && DependsInside(run.StateAt(i + 1)[id].dependsOn, ids)
  {
    assert IsKnottedAt(run, i, ids);
    if id in run.StateAt(i) {
      ClaimIffInProgress(run, i, id);
      if !run.Creates(i, id) {
        StepNeverFalls(run, i, id);
      }
    }
    var d :| d in run.StateAt(i + 1)[id].dependsOn && d in ids;
    assert !IsCompleted(run.StateAt(i), d);
    BlockedStaysPending(run.leaseSeconds, run.StateAt(i), run.ops[i], id, d);
  }

  /** Call `i`, if it creates a task on the path, makes it depend on the next one. */
  ghost predicate LeadsOnAt(run: Run, i: nat, path: seq<TaskId>)
    requires i < |run.ops|
  {
    forall m, next :: 0 <= m < next < |path| && next == m + 1 && run.Creates(i, path[m]) ==> path[next] in run.ops[i].dependsOn
  }

  ghost predicate LeadsOn(run: Run, path: seq<TaskId>) {
    forall i: nat {:trigger LeadsOnAt(run, i, path)} :: i < |run.ops| ==> LeadsOnAt(run, i, path)
  }

  /** The path runs into itself, or ends at an id that is never created. */
  ghost predicate NeverArrives(run: Run, path: seq<TaskId>) {
    && path != []
    && (path[|path| - 1] in path[..|path| - 1] || run.NotCreated(path[|path| - 1], 0, |run.ops|))
  }

  /** No task from which dependencies lead around a cycle, or to an id that is never created, ever
      leaves pending, however often the tasks are created. */
  lemma {:induction false} CyclicOrDanglingNeverRuns(run: Run, path: seq<TaskId>, i: nat, k: nat)
    requires i <= |run.ops| && LeadsOn(run, path) && NeverArrives(run, path)
    requires k < |path| && path[k] in run.StateAt(i)
    ensures run.StateAt(i)[path[k]].status == Pending
  {
    var ids := set id | id in path;
    forall n: nat | n < |run.ops| ensures IsKnottedAt(run, n, ids) {
      PathIsKnotted(run, path, n, ids);
    }
    KnotStaysPending(run, i, ids);
  }

  lemma PathIsKnotted(run: Run, path: seq<TaskId>, n: nat, ids: set<TaskId>)
    requires LeadsOn(run, path) && NeverArrives(run, path) && n < |run.ops|
    requires forall id :: id in ids <==> id in path
    ensures IsKnottedAt(run, n, ids)
  {
    var op := run.ops[n];
    if op.Create? && run.DoneAt(n) && op.id in ids {
      assert run.Creates(n, op.id) && LeadsOnAt(run, n, path);
      var m :| 0 <= m < |path| - 1 && path[m] == op.id;
      var next := m + 1;
      assert path[next] in op.dependsOn && path[next] in ids;
    }
  }

  /** No task on the path is created twice. */
  ghost predicate CreatedOnce(run: Run, path: seq<TaskId>) {
    forall m, i: nat, j: nat :: 0 <= m < |path| && i < j < |run.ops| && run.Creates(i, path[m]) ==> !run.Creates(j, path[m])
  }

  /** For tasks created once this can be read off the final store. */
  lemma StoredPathNeverRuns(run: Run, path: seq<TaskId>, i: nat, k: nat)
    requires i <= |run.ops| && CreatedOnce(run, path) && NeverArrives(run, path)
    requires IsDependencyPath(run.StateAt(|run.ops|), path)
    requires k < |path| && path[k] in run.StateAt(i)
    ensures run.StateAt(i)[path[k]].status == Pending
  {
    var final := run.StateAt(|run.ops|);
    forall n: nat | n < |run.ops| ensures LeadsOnAt(run, n, path) {
      forall m, next | 0 <= m < next < |path| && next == m + 1 && run.Creates(n, path[m])
        ensures path[next] in run.ops[n].dependsOn
      {
        VersionsNeverFall(run, n + 1, |run.ops|, path[m]);
        assert DependsOn(final, path[m], path[next]);
      }
    }
    CyclicOrDanglingNeverRuns(run, path, i, k);
  }

  ghost predicate DependenciesAreStored(tasks: TaskMap) {
    forall id, d :: id in tasks && d in tasks[id].dependsOn ==> d in tasks
  }

  ghost predicate IsAcyclic(tasks: TaskMap) {
    forall path :: !IsCycle(tasks, path)
  }

  /** A walk of `n` dependency steps that never leaves `ids`. */
  lemma {:induction false} WalkInside(tasks: TaskMap, ids: set<TaskId>, n: nat) returns (walk: seq<TaskId>)
    requires ids != {} && ids <= tasks.Keys && IsKnot(tasks, ids)
    ensures |walk| == n + 1 && IsDependencyPath(tasks, walk) && forall k :: 0 <= k <= n ==> walk[k] in ids
  {
    if n == 0 {
      var id :| id in ids;
      walk := [id];
    } else {
      var shorter := WalkInside(tasks, ids, n - 1);
      assert WaitsFor(tasks, shorter[n - 1], ids);
      var d :| DependsOn(tasks, shorter[n - 1], d) && d in ids;
      walk := shorter + [d];
    }
  }

  lemma {:induction false} Pigeonhole(walk: seq<TaskId>, ids: set<TaskId>) returns (a: nat, b: nat)
    requires |walk| > |ids| && forall k :: 0 <= k < |walk| ==> walk[k] in ids
    ensures a < b < |walk| && walk[a] == walk[b]
  {
    var last := |walk| - 1;
    if k :| 0 <= k < last && walk[k] == walk[last] {
      a, b := k, last;
    } else {
      a, b := Pigeonhole(walk[..last], ids - {walk[last]});
    }
  }

  /** In an acyclic store every nonempty set of tasks has a member that depends on none of them. */
  lemma {:induction false} AcyclicHasMinimum(tasks: TaskMap, ids: set<TaskId>) returns (id: TaskId)
    requires IsAcyclic(tasks) && ids != {} && ids <= tasks.Keys
    ensures id in ids && forall d :: d in tasks[id].dependsOn ==> d !in ids
  {
    if IsKnot(tasks, ids) {
      var walk := WalkInside(tasks, ids, |ids|);
      var a, b := Pigeonhole(walk, ids);
      assert IsCycle(tasks, walk[a..b + 1]);
      assert false;
    }
    id :| id in ids && id in tasks && !WaitsFor(tasks, id, ids);
    assert forall d :: d in tasks[id].dependsOn ==> DependsOn(tasks, id, d);
  }

  /** No deadlock: if dependencies are stored and acyclic, no task is failed and no lease is live,
      then some task is ready unless every task is completed. */
  lemma {:induction false} NoDeadlock(leaseSeconds: int, tasks: TaskMap, now: int)
    requires DependenciesAreStored(tasks) && IsAcyclic(tasks)
    requires forall id :: id in tasks ==> Effective(leaseSeconds, tasks[id], now).status in {Pending, Completed}
    ensures (exists id :: IsReady(leaseSeconds, tasks, id, now)) <==> exists id :: id in tasks && tasks[id].status != Completed
  {
    var unfinished := set id | id in tasks && tasks[id].status != Completed;
    if u :| u in unfinished {
      var id := AcyclicHasMinimum(tasks, unfinished);
      assert forall k :: 0 <= k < |tasks[id].dependsOn| ==> tasks[id].dependsOn[k] !in unfinished;
      assert IsReady(leaseSeconds, tasks, id, now);
    } else {
      assert forall id :: id in tasks ==> id !in unfinished;
    }
  }

  /** No lease is live: a task in progress can be claimed again. */
  ghost predicate IsQuiet(leaseSeconds: int, tasks: TaskMap, now: int) {
    forall id :: id in tasks && tasks[id].status == InProgress ==> LeaseExpired(leaseSeconds, tasks[id], now)
  }

  predicate IsSettled(task: TeamTask) {
    task.status == Completed || task.status == Failed
  }

  ghost function Unsettled(tasks: TaskMap): set<TaskId> {
    set id | id in tasks && !IsSettled(tasks[id])
  }

  /** Dependencies lead from the task to a failed one, which may be the task itself. */
  ghost predicate LeadsToFailed(tasks: TaskMap, id: TaskId) {
    exists path :: IsPathToFailed(tasks, path, id)
  }

  ghost predicate IsPathToFailed(tasks: TaskMap, path: seq<TaskId>, id: TaskId) {
    && IsDependencyPath(tasks, path) && path[0] == id
    && path[|path| - 1] in tasks && tasks[path[|path| - 1]].status == Failed
  }

  lemma LeadsOneFurther(tasks: TaskMap, id: TaskId, d: TaskId)
    requires DependsOn(tasks, id, d) && LeadsToFailed(tasks, d)
    ensures LeadsToFailed(tasks, id)
  {
    var path :| IsPathToFailed(tasks, path, d);
    var longer := [id] + path;
    assert longer[|longer| - 1] == path[|path| - 1];
    forall k, next | 0 <= k < next < |longer| && next == k + 1 ensures DependsOn(tasks, longer[k], longer[next]) {
      if k > 0 {
        assert longer[k] == path[k - 1] && longer[next] == path[next - 1];
      }
    }
    assert IsPathToFailed(tasks, longer, id);
  }

  /** When no task is ready and no lease is live, every task is completed except those from which
      dependencies lead to a failed one. */
  lemma NothingReadyLeavesFailures(leaseSeconds: int, tasks: TaskMap, now: int)
    requires DependenciesAreStored(tasks) && IsAcyclic(tasks) && IsQuiet(leaseSeconds, tasks, now)
    requires forall id :: !IsReady(leaseSeconds, tasks, id, now)
    ensures forall id :: id in tasks ==> tasks[id].status == Completed || LeadsToFailed(tasks, id)
  {
    forall id | id in tasks && tasks[id].status == Failed ensures LeadsToFailed(tasks, id) {
      assert IsPathToFailed(tasks, [id], id);
    }
    var rest := set id | id in tasks && tasks[id].status != Completed && !LeadsToFailed(tasks, id);
    if rest != {} {
      var id := AcyclicHasMinimum(tasks, rest);
      assert !IsReady(leaseSeconds, tasks, id, now);
      forall d | d in tasks[id].dependsOn ensures IsCompleted(tasks, d) {
        assert DependsOn(tasks, id, d);
        if LeadsToFailed(tasks, d) {
          LeadsOneFurther(tasks, id, d);
        }
      }
      assert false;
    }
    assert forall id :: id in tasks ==> id !in rest;
  }

  /** A failed task holds up another that depends on it. */
  ghost predicate HoldsUp(tasks: TaskMap, id: TaskId, d: TaskId) {
    DependsOn(tasks, id, d) && !IsSettled(tasks[id]) && d in tasks && tasks[d].status == Failed
  }

  /** In the same situation, some task is neither completed nor failed if and only if a failed task holds
      up one that depends on it. */
  lemma UnsettledIffHeldUp(leaseSeconds: int, tasks: TaskMap, now: int)
    requires DependenciesAreStored(tasks) && IsAcyclic(tasks) && IsQuiet(leaseSeconds, tasks, now)
    requires forall id :: !IsReady(leaseSeconds, tasks, id, now)
    ensures Unsettled(tasks) != {} <==> exists id, d :: HoldsUp(tasks, id, d)
  {
    if Unsettled(tasks) != {} {
      var id := AcyclicHasMinimum(tasks, Unsettled(tasks));
      assert !IsReady(leaseSeconds, tasks, id, now);
      var k :| 0 <= k < |tasks[id].dependsOn| && !IsCompleted(tasks, tasks[id].dependsOn[k]);
      assert HoldsUp(tasks, id, tasks[id].dependsOn[k]);
    }
    if id, d :| HoldsUp(tasks, id, d) {
      assert id in Unsettled(tasks);
    }
  }

  /** Cycles depend only on ids and dependency lists. */
  lemma {:induction false} ShapeDecidesCycles(tasks: TaskMap, other: TaskMap)
    requires tasks.Keys == other.Keys && forall id :: id in tasks ==> tasks[id].dependsOn == other[id].dependsOn
    ensures IsAcyclic(tasks) ==> IsAcyclic(other)
  {
    forall path | IsCycle(other, path) ensures IsCycle(tasks, path) {
    }
  }
}
