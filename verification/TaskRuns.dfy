/** Lease fencing over whole runs of the task protocol (internal/team/tasks.go:119-332,
    internal/team/recovery.go:115-142).

    A run is any finite sequence of calls, from any workers, in any order, with any tokens and
    any clock readings, started on an empty store.
 */
module TaskRuns {
  import opened Options
  import opened TaskModel

  datatype Run = Run(leaseSeconds: int, ops: seq<Op>) {
    /** The store before call number `i`. */
    function StateAt(i: nat): TaskMap
      requires i <= |ops|
    {
      if i == 0 then map[] else Apply(leaseSeconds, StateAt(i - 1), ops[i - 1])
    }

    predicate DoneAt(i: nat)
      requires i < |ops|
    {
      Report(leaseSeconds, StateAt(i), ops[i]) == Done
    }

    /** Call `i` is a successful claim of task `id`. */
    predicate Takes(i: nat, id: TaskId)
      requires i < |ops|
    {
      ops[i].Claim? && ops[i].id == id && DoneAt(i)
    }

    /** A reading `now` of the clock, in nanoseconds, is no later than the lease of `leaseSeconds` seconds
        that was stamped at `leasedAt` allows; without a lease length, leases do not expire. */
    predicate IsLive(leasedAt: int, now: int) {
      leaseSeconds <= 0 || now - leasedAt <= leaseSeconds * 1_000_000_000
    }

    /** Call `i` gives up whatever claim was held on task `id`. */
    predicate Ends(i: nat, id: TaskId)
      requires i < |ops|
    {
      match ops[i]
      case Recover(alive, at) =>
        && id in StateAt(i) && StateAt(i)[id].status == InProgress && StateAt(i)[id].claim.Some?
        && StateAt(i)[id].claim.value.worker !in alive
        && IsLive(StateAt(i)[id].claim.value.leasedAt, at)
      case Claim(_, _, _, _, _, _) => false
      case Renew(_, _, _, _) => false
      case _ => ops[i].id == id && DoneAt(i)
    }

    predicate Renews(i: nat, id: TaskId)
      requires i < |ops|
    {
      ops[i].Renew? && ops[i].id == id && DoneAt(i)
    }

    /** The claim made by call `j` is the latest one on task `id` and is still held before call `i`. */
    ghost predicate HeldSince(id: TaskId, j: nat, i: nat)
      requires i <= |ops|
    {
      && j < i
      && Takes(j, id)
      && forall k :: j < k < i ==> !Takes(k, id) && !Ends(k, id)
    }

    /** The last time before call `i` at which the lease begun by call `j` was stamped. */
    function LastStamp(id: TaskId, j: nat, i: nat): int
      requires j < i <= |ops| && ops[j].Claim?
    {
      if i == j + 1 then ops[j].stampAt
      else if Renews(i - 1, id) then ops[i - 1].stampAt
      else LastStamp(id, j, i - 1)
    }

    /** The claim that the store ought to hold for `id` if call `j` still holds it before call `i`. */
    function ClaimOf(id: TaskId, j: nat, i: nat): TaskClaim
      requires j < i <= |ops| && ops[j].Claim?
    {
      TaskClaim(ops[j].worker, ops[j].token, LastStamp(id, j, i))
    }

    /** Call `i` is an accepted create of task `id`; it starts the record over. */
    predicate Creates(i: nat, id: TaskId)
      requires i < |ops|
    {
      ops[i].Create? && ops[i].id == id && DoneAt(i)
    }

    /** No call from `i` on and before `j` creates `id`. */
    ghost predicate NotCreated(id: TaskId, i: nat, j: nat)
      requires j <= |ops|
    {
      forall k: nat {:trigger Creates(k, id)} :: i <= k < j ==> !Creates(k, id)
    }

    /** Call `i` writes the record of `id` without creating it. */
    predicate Writes(i: nat, id: TaskId)
      requires i < |ops|
    {
      match ops[i]
      case Create(_, _) => false
      case Recover(_, _) => Ends(i, id)
      case _ => ops[i].id == id && DoneAt(i)
    }

    /** The writes to `id` before call `i`, since the last accepted create of `id`. */
    function WriteCount(i: nat, id: TaskId): nat
      requires i <= |ops|
    {
      if i == 0 || Creates(i - 1, id) then 0
      else WriteCount(i - 1, id) + if Writes(i - 1, id) then 1 else 0
    }

    /** Call `i` completes task `id`. */
    predicate Completes(i: nat, id: TaskId)
      requires i < |ops|
    {
      ops[i].Complete? && ops[i].id == id && DoneAt(i)
    }

    /** Call `k` completed `id`, which has not been created since. */
    ghost predicate CompletedSince(id: TaskId, k: nat, i: nat)
      requires i <= |ops|
    {
      k < i && Completes(k, id) && NotCreated(id, k, i)
    }

    ghost predicate TokensAreFresh() {
      forall i, j :: 0 <= i < j < |ops| && ops[i].Claim? && ops[j].Claim? ==> ops[i].token != ops[j].token
    }

    /** The clock does not run backwards between authenticated calls. */
    ghost predicate ClockIsMonotone() {
      forall i, j :: 0 <= i < j < |ops| && ops[i].UsesToken() && ops[j].UsesToken() ==> ops[i].checkAt <= ops[j].checkAt
    }
  }

  /** In every reachable store a task carries a claim exactly when it is in progress, and is
      stored under its own id. */
  lemma {:induction false} ClaimIffInProgress(run: Run, i: nat, id: TaskId)
    requires i <= |run.ops| && id in run.StateAt(i)
    ensures run.StateAt(i)[id].claim.Some? <==> run.StateAt(i)[id].status == InProgress
    ensures run.StateAt(i)[id].id == id
  {
    if i > 0 && id in run.StateAt(i - 1) {
      ClaimIffInProgress(run, i - 1, id);
    }
  }

  /** The store records a claim exactly when the history of calls says that one is held, and
      the recorded claim is that one, with the lease stamp of its last renewal. */
  lemma {:induction false} StoreTracksHolder(run: Run, i: nat, id: TaskId) returns (holder: Option<nat>)
    requires i <= |run.ops|
    ensures holder.Some? <==> id in run.StateAt(i) && run.StateAt(i)[id].claim.Some?
    ensures holder.Some? ==> run.HeldSince(id, holder.value, i)
    ensures holder.Some? ==> run.StateAt(i)[id].claim.value == run.ClaimOf(id, holder.value, i)
    ensures forall j: nat :: run.HeldSince(id, j, i) ==> holder == Some(j)
  {
    if i == 0 {
      return None;
    }
    var before := StoreTracksHolder(run, i - 1, id);
    if id in run.StateAt(i - 1) {
      ClaimIffInProgress(run, i - 1, id);
    }
    if run.Takes(i - 1, id) {
      holder := Some(i - 1);
    } else if run.Ends(i - 1, id) {
      holder := None;
    } else {
      holder := before;
    }
    forall j: nat | run.HeldSince(id, j, i) ensures holder == Some(j) {
      if j < i - 1 {
        assert run.HeldSince(id, j, i - 1);
      }
    }
  }

  /** Fencing, exactly: a renew, complete, fail or release with token `t` succeeds if and only if
      the latest successful claim on that task issued `t`, nothing has given that claim up since,
      and the call's clock reading is within the lease of the claim's last stamp. */
  lemma {:induction false} TokenCallSucceedsIff(run: Run, i: nat)
    requires i < |run.ops| && run.ops[i].UsesToken()
    ensures run.DoneAt(i) <==>
            exists j: nat ::
              && run.HeldSince(run.ops[i].id, j, i)
              && run.ops[j].token == run.ops[i].token
              && run.IsLive(run.LastStamp(run.ops[i].id, j, i), run.ops[i].checkAt)
  {
    var id := run.ops[i].id;
    var holder := StoreTracksHolder(run, i, id);
    if id in run.StateAt(i) {
      ClaimIffInProgress(run, i, id);
    }
  }

  /** Every renewal along the life of a claim was itself made in time: the clock reading of each
      renewal is within the lease of the stamp before it. */
  lemma {:induction false} RenewalsWereInTime(run: Run, id: TaskId, j: nat, k: nat, i: nat)
    requires i <= |run.ops| && run.HeldSince(id, j, i) && j < k < i && run.Renews(k, id)
    ensures run.ops[k].token == run.ops[j].token
    ensures run.IsLive(run.LastStamp(id, j, k), run.ops[k].checkAt)
  {
    TokenCallSucceedsIff(run, k);
    var h: nat :| run.HeldSince(id, h, k) && run.ops[h].token == run.ops[k].token
      && run.IsLive(run.LastStamp(id, h, k), run.ops[k].checkAt);
    assert run.HeldSince(id, j, k);
    var holder := StoreTracksHolder(run, k, id);
  }

  /** Mutual exclusion: a claim that displaces a holder was decided after that holder's lease ran out. */
  lemma {:induction false} ClaimDisplacesOnlyExpired(run: Run, id: TaskId, j: nat, i: nat)
    requires i < |run.ops| && run.HeldSince(id, j, i) && run.Takes(i, id)
    ensures !run.IsLive(run.LastStamp(id, j, i), run.ops[i].checkAt)
  {
    var holder := StoreTracksHolder(run, i, id);
    ClaimIffInProgress(run, i, id);
  }

  /** When claims draw distinct tokens, a token completes, fails or releases its task at most once. */
  lemma {:induction false} TokenEndsTaskAtMostOnce(run: Run, i: nat, j: nat)
    requires i < j < |run.ops| && run.TokensAreFresh()
    requires run.ops[i].UsesToken() && run.ops[j].UsesToken() && !run.ops[i].Renew?
    requires run.DoneAt(i) && run.ops[i].token == run.ops[j].token && run.ops[i].id == run.ops[j].id
    ensures !run.DoneAt(j)
  {
    var id := run.ops[i].id;
    TokenCallSucceedsIff(run, i);
    TokenCallSucceedsIff(run, j);
    if run.DoneAt(j) {
      var a: nat :| run.HeldSince(id, a, i) && run.ops[a].token == run.ops[i].token;
      var b: nat :| run.HeldSince(id, b, j) && run.ops[b].token == run.ops[j].token;
      assert a == b;
      assert run.Ends(i, id);
    }
  }

  /** Under a monotone clock a fenced token stays fenced: once a call with an issued token has
      been refused, every later call with it is refused. */
  lemma {:induction false} FencedForever(run: Run, c: nat, i: nat, j: nat)
    requires c < i < j < |run.ops| && run.TokensAreFresh() && run.ClockIsMonotone()
    requires run.ops[c].Claim? && run.ops[i].UsesToken() && run.ops[j].UsesToken()
    requires run.ops[c].id == run.ops[i].id == run.ops[j].id
    requires run.ops[c].token == run.ops[i].token == run.ops[j].token
    requires !run.DoneAt(i)
    ensures !run.DoneAt(j)
    decreases j
  {
    var id := run.ops[i].id;
    TokenCallSucceedsIff(run, i);
    TokenCallSucceedsIff(run, j);
    if run.DoneAt(j) {
      var b: nat :| run.HeldSince(id, b, j) && run.ops[b].token == run.ops[j].token
        && run.IsLive(run.LastStamp(id, b, j), run.ops[j].checkAt);
      assert b == c;
      assert run.HeldSince(id, b, i);
      forall k | i < k < j && run.Renews(k, id) ensures false {
        RenewalsWereInTime(run, id, b, k, j);
        FencedForever(run, c, i, k);
      }
      StampUnchanged(run, id, b, i, j);
    }
  }

  lemma {:induction false} StampUnchanged(run: Run, id: TaskId, b: nat, i: nat, j: nat)
    requires b < i <= j <= |run.ops| && run.ops[b].Claim?
    requires forall k :: i <= k < j ==> !run.Renews(k, id)
    ensures run.LastStamp(id, b, j) == run.LastStamp(id, b, i)
  {
    if i < j {
      StampUnchanged(run, id, b, i, j - 1);
    }
  }

  /** Each write to an existing record raises its version by one; an accepted create starts the record
      over at version 1; nothing else touches it. */
  lemma {:induction false} WritesRaiseVersion(run: Run, i: nat, id: TaskId)
    requires i < |run.ops| && id in run.StateAt(i)
    ensures id in run.StateAt(i + 1)
    ensures var before, after := run.StateAt(i)[id], run.StateAt(i + 1)[id];
            if run.Creates(i, id) then after.version == 1
            else if run.Writes(i, id) then after.version == before.version + 1
            else after == before
  {
    assert run.StateAt(i + 1) == Apply(run.leaseSeconds, run.StateAt(i), run.ops[i]);
  }

  /** A version is one more than the number of writes since the record was created. */
  lemma {:induction false} VersionCountsWrites(run: Run, i: nat, id: TaskId)
    requires i <= |run.ops| && id in run.StateAt(i)
    ensures run.StateAt(i)[id].version == 1 + run.WriteCount(i, id)
  {
    if i > 0 && id in run.StateAt(i - 1) {
      VersionCountsWrites(run, i - 1, id);
      WritesRaiseVersion(run, i - 1, id);
    }
  }

  /** One call leaves a record of the same task that is at least as new. */
  ghost predicate Succeeds(before: TeamTask, after: TeamTask) {
    && before.version <= after.version && before.dependsOn == after.dependsOn
    && (before.status == Completed ==> after == before)
  }

  lemma StepNeverFalls(run: Run, i: nat, id: TaskId)
    requires i < |run.ops| && !run.Creates(i, id) && id in run.StateAt(i)
    ensures id in run.StateAt(i + 1) && Succeeds(run.StateAt(i)[id], run.StateAt(i + 1)[id])
  {
    ClaimIffInProgress(run, i, id);
    WritesRaiseVersion(run, i, id);
  }

  /** Until its id is created again, a task's version never falls, its dependencies never change and
      completed is permanent. */
  lemma {:induction false} VersionsNeverFall(run: Run, i: nat, j: nat, id: TaskId)
    requires i <= j <= |run.ops| && run.NotCreated(id, i, j) && id in run.StateAt(i)
    ensures id in run.StateAt(j) && Succeeds(run.StateAt(i)[id], run.StateAt(j)[id])
    decreases j
  {
    if i < j {
      VersionsNeverFall(run, i, j - 1, id);
      StepNeverFalls(run, j - 1, id);
    }
  }

  /** Two successful claims of a task saw the same version if and only if the task had been written
      equally often since it was created. */
  lemma SameVersionIff(run: Run, i: nat, j: nat, id: TaskId)
    requires i < j < |run.ops| && run.Takes(i, id) && run.Takes(j, id)
    ensures run.ops[i].expectedVersion == run.ops[j].expectedVersion <==> run.WriteCount(i, id) == run.WriteCount(j, id)
  {
    VersionCountsWrites(run, i, id);
    VersionCountsWrites(run, j, id);
  }

  /** At most one claim of a task succeeds per observed version, and later winners saw strictly later
      versions, unless the task itself is created again between the two claims. */
  lemma {:induction false} OneClaimPerVersion(run: Run, i: nat, j: nat, id: TaskId)
    requires i < j < |run.ops| && run.Takes(i, id) && run.Takes(j, id) && run.NotCreated(id, i, j)
    ensures run.ops[i].expectedVersion < run.ops[j].expectedVersion
  {
    assert run.StateAt(i + 1)[id].version == run.ops[i].expectedVersion + 1;
    VersionsNeverFall(run, i + 1, j, id);
  }

  /** Creating a stored id again does break the version fence: two claims win with the same observed
      version. */
  lemma RecreateReusesVersions()
    ensures exists run: Run ::
              && |run.ops| == 4 && run.Creates(2, "a")
              && run.Takes(1, "a") && run.Takes(3, "a")
              && run.ops[1].expectedVersion == run.ops[3].expectedVersion
  {
    var ops := [Create("a", []), Claim("a", "w", 1, "t", 0, 0), Create("a", []), Claim("a", "v", 1, "u", 0, 0)];
    var run := Run(60, ops);
    assert run.StateAt(1) == map["a" := TeamTask("a", Pending, [], None, 1, "")];
    assert run.DoneAt(1);
    assert run.Creates(2, "a");
    assert run.StateAt(3)["a"] == TeamTask("a", Pending, [], None, 1, "");
    assert run.DoneAt(3);
  }

  /** A task is completed if and only if a call completed it since its last creation. */
  lemma {:induction false} CompletedIff(run: Run, i: nat, id: TaskId)
    requires i <= |run.ops|
    ensures IsCompleted(run.StateAt(i), id) <==> exists k: nat :: run.CompletedSince(id, k, i)
  {
    if i > 0 {
      var m: nat := i - 1;
      CompletedIff(run, m, id);
      CompletedStep(run, m, id);
      if run.Completes(m, id) {
        assert run.CompletedSince(id, m, i);
      } else if run.Creates(m, id) {
        assert forall k: nat :: !run.CompletedSince(id, k, i);
      } else {
        if k: nat :| run.CompletedSince(id, k, m) {
          assert run.CompletedSince(id, k, i);
        }
        if k: nat :| run.CompletedSince(id, k, i) {
          assert run.CompletedSince(id, k, m);
        }
      }
    }
  }

  lemma CompletedStep(run: Run, i: nat, id: TaskId)
    requires i < |run.ops|
    ensures run.Completes(i, id) ==> IsCompleted(run.StateAt(i + 1), id)
    ensures run.Creates(i, id) ==> !IsCompleted(run.StateAt(i + 1), id)
    ensures !run.Completes(i, id) && !run.Creates(i, id) ==>
              (IsCompleted(run.StateAt(i + 1), id) <==> IsCompleted(run.StateAt(i), id))
  {
    if id in run.StateAt(i) {
      ClaimIffInProgress(run, i, id);
    }
  }

  /** A dependency was completed by a call since its last creation. */
  ghost predicate IsDoneBefore(run: Run, d: TaskId, i: nat)
    requires i <= |run.ops|
  {
    exists k: nat :: run.CompletedSince(d, k, i)
  }

  /** A claim succeeds if and only if the task is stored, its caller saw the latest version, no claim is held
      within its lease, the task was neither completed nor failed last, and each of its dependencies has
      been completed since its last creation. */
  lemma ClaimSucceedsIff(run: Run, i: nat)
    requires i < |run.ops| && run.ops[i].Claim?
    ensures
      var id := run.ops[i].id;
      run.DoneAt(i) <==>
        && id in run.StateAt(i)
        && run.ops[i].expectedVersion == 1 + run.WriteCount(i, id)
        && run.StateAt(i)[id].status != Completed && run.StateAt(i)[id].status != Failed
        && (forall j: nat :: run.HeldSince(id, j, i) ==> !run.IsLive(run.LastStamp(id, j, i), run.ops[i].checkAt))
        && (forall d :: d in run.StateAt(i)[id].dependsOn ==> IsDoneBefore(run, d, i))
  {
    var id := run.ops[i].id;
    if id in run.StateAt(i) {
      VersionCountsWrites(run, i, id);
      ClaimIffInProgress(run, i, id);
      var holder := StoreTracksHolder(run, i, id);
      var task := run.StateAt(i)[id];
      assert task.status == InProgress ==> (LeaseExpired(run.leaseSeconds, task, run.ops[i].checkAt)
        <==> !run.IsLive(run.LastStamp(id, holder.value, i), run.ops[i].checkAt));
      forall d | d in task.dependsOn ensures IsDoneBefore(run, d, i) <==> IsCompleted(run.StateAt(i), d) {
        CompletedIff(run, i, d);
      }
      assert IsBlocked(run.StateAt(i), task.dependsOn) <==> exists d :: d in task.dependsOn && !IsCompleted(run.StateAt(i), d);
    }
  }

  /** Startup recovery changes the record of a task if and only if a call holds it whose worker is not alive,
      with its lease still running; the record then is pending and unclaimed, one version higher, and
      otherwise the same. */
  lemma RecoveryReleasesIff(run: Run, i: nat, id: TaskId)
    requires i < |run.ops| && run.ops[i].Recover? && id in run.StateAt(i)
    ensures id in run.StateAt(i + 1)
    ensures
      var before, after := run.StateAt(i)[id], run.StateAt(i + 1)[id];
      && (after != before <==>
            exists j: nat ::
              run.HeldSince(id, j, i) && run.ops[j].worker !in run.ops[i].alive
              && run.IsLive(run.LastStamp(id, j, i), run.ops[i].checkAt))
      && (after != before ==>
            after == TeamTask(before.id, Pending, before.dependsOn, None, before.version + 1, before.result))
  {
    var holder := StoreTracksHolder(run, i, id);
    ClaimIffInProgress(run, i, id);
    WritesRaiseVersion(run, i, id);
  }

  /** Call `w` wrote the record of `id` last, and not just its lease. */
  ghost predicate IsLastWrite(run: Run, id: TaskId, w: nat, i: nat)
    requires i <= |run.ops|
  {
    && w < i && Decides(run, w, id)
    && forall k: nat {:trigger Decides(run, k, id)} :: w < k < i ==> !Decides(run, k, id)
  }

  predicate Decides(run: Run, k: nat, id: TaskId)
    requires k < |run.ops|
  {
    run.Creates(k, id) || (run.Writes(k, id) && !run.ops[k].Renew?)
  }

  /** The status that a call leaves: pending after a create, a release, a reset or a recovery, in progress
      after a claim, completed after a completion and failed after a failure. */
  function StatusAfter(op: Op): TaskStatus {
    match op
    case Claim(_, _, _, _, _, _) => InProgress
    case Complete(_, _, _, _) => Completed
    case Fail(_, _, _, _) => Failed
    case Renew(_, _, _, _) => InProgress
    case _ => Pending
  }

  /** In every reachable store the status of a task is the one its last write leaves, and after a completion
      or a failure its result is the one the call gave. */
  lemma {:induction false} LastWriteDecides(run: Run, i: nat, id: TaskId) returns (w: nat)
    requires i <= |run.ops| && id in run.StateAt(i)
    ensures IsLastWrite(run, id, w, i) && run.StateAt(i)[id].status == StatusAfter(run.ops[w])
    ensures run.ops[w].Complete? || run.ops[w].Fail? ==> run.StateAt(i)[id].result == run.ops[w].result
  {
    var m: nat := i - 1;
    if Decides(run, m, id) {
      w := m;
      if id in run.StateAt(m) {
        ClaimIffInProgress(run, m, id);
      }
    } else {
      DecidedBefore(run, m, id);
      w := LastWriteDecides(run, m, id);
    }
  }

  lemma DecidedBefore(run: Run, m: nat, id: TaskId)
    requires m < |run.ops| && id in run.StateAt(m + 1) && !Decides(run, m, id)
    ensures id in run.StateAt(m)
    ensures run.StateAt(m + 1)[id].status == run.StateAt(m)[id].status && run.StateAt(m + 1)[id].result == run.StateAt(m)[id].result
  {
    if id in run.StateAt(m) {
      ClaimIffInProgress(run, m, id);
    }
  }

  /** A result is only ever set by a completion or a failure, and starts out empty. */
  lemma {:induction false} ResultComesFromCall(run: Run, i: nat, id: TaskId)
    requires i <= |run.ops| && id in run.StateAt(i)
    ensures run.StateAt(i)[id].result == "" || exists k: nat ::
              k < i && (run.ops[k].Complete? || run.ops[k].Fail?) && run.ops[k].id == id && run.DoneAt(k)
              && run.ops[k].result == run.StateAt(i)[id].result
  {
    var m: nat := i - 1;
    if id in run.StateAt(m) {
      ResultComesFromCall(run, m, id);
    }
    if (run.ops[m].Complete? || run.ops[m].Fail?) && run.ops[m].id == id && run.DoneAt(m) {
      assert run.ops[m].result == run.StateAt(i)[id].result;
    }
  }

  /** An id is stored if and only if it was created before. */
  lemma {:induction false} StoredIffCreated(run: Run, i: nat, id: TaskId)
    requires i <= |run.ops|
    ensures id in run.StateAt(i) <==> !run.NotCreated(id, 0, i)
  {
    if i > 0 {
      var m: nat := i - 1;
      StoredIffCreated(run, m, id);
      StoredStep(run, m, id);
      assert run.NotCreated(id, 0, i) <==> run.NotCreated(id, 0, m) && !run.Creates(m, id);
    }
  }

  lemma StoredStep(run: Run, m: nat, id: TaskId)
    requires m < |run.ops|
    ensures id in run.StateAt(m + 1) <==> id in run.StateAt(m) || run.Creates(m, id)
  {
    if id in run.StateAt(m) {
      WritesRaiseVersion(run, m, id);
    }
  }

  /** Its dependencies are those of its last creation. */
  lemma DependenciesAreCreated(run: Run, k: nat, i: nat, id: TaskId)
    requires k < i <= |run.ops| && run.Creates(k, id) && run.NotCreated(id, k + 1, i)
    ensures id in run.StateAt(i) && run.StateAt(i)[id].dependsOn == run.ops[k].dependsOn
  {
    VersionsNeverFall(run, k + 1, i, id);
  }

  /** A create is refused if and only if the id is empty. */
  lemma CreateSucceedsIff(run: Run, i: nat)
    requires i < |run.ops| && run.ops[i].Create?
    ensures Report(run.leaseSeconds, run.StateAt(i), run.ops[i]) == if run.ops[i].id == "" then Rejected(IdRequired) else Done
  {
  }

  /** Why a claim is refused, in the order in which the reasons are looked at. */
  lemma ClaimIsRefusedFor(run: Run, i: nat)
    requires i < |run.ops| && run.ops[i].Claim? && !run.DoneAt(i)
    ensures
      var id := run.ops[i].id;
      Report(run.leaseSeconds, run.StateAt(i), run.ops[i]) == Rejected(
        if id !in run.StateAt(i) then NotFound
        else if run.ops[i].expectedVersion != 1 + run.WriteCount(i, id) then VersionConflict
        else if IsTaken(run, i, id) then NotClaimable
        else DependencyBlocked)
  {
    var id := run.ops[i].id;
    if id in run.StateAt(i) {
      VersionCountsWrites(run, i, id);
      ClaimIffInProgress(run, i, id);
      var holder := StoreTracksHolder(run, i, id);
    }
  }

  /** The task was completed or failed last, or a claim of it is held within its lease. */
  ghost predicate IsTaken(run: Run, i: nat, id: TaskId)
    requires i < |run.ops| && run.ops[i].Claim? && id in run.StateAt(i)
  {
    || run.StateAt(i)[id].status == Completed || run.StateAt(i)[id].status == Failed
    || exists j: nat :: run.HeldSince(id, j, i) && run.IsLive(run.LastStamp(id, j, i), run.ops[i].checkAt)
  }

  /** Token calls and resets on ids that are not stored report that, a token call that is refused otherwise
      has no valid claim, and a reset does something exactly for a failed task. */
  lemma OtherOutcomes(run: Run, i: nat)
    requires i < |run.ops| && (run.ops[i].UsesToken() || run.ops[i].Reset?)
    ensures
      var id, outcome := run.ops[i].id, Report(run.leaseSeconds, run.StateAt(i), run.ops[i]);
      && (id !in run.StateAt(i) <==> outcome == Rejected(NotFound))
      && (run.ops[i].UsesToken() && id in run.StateAt(i) && outcome != Done ==> outcome == Rejected(InvalidClaim))
      && (run.ops[i].Reset? && id in run.StateAt(i) ==>
            outcome == if run.StateAt(i)[id].status == Failed then Done else NothingToDo)
  {
    if run.ops[i].id in run.StateAt(i) {
      ClaimIffInProgress(run, i, run.ops[i].id);
    }
  }
}
