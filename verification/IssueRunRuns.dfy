/** What every sequence of requests and alarms keeps of an issue run
    (cloud/src/do/issue-run.ts:135-142, 195-288, 327-482, 540-628, 765-769). */
module IssueRunRuns {
  import opened Options
  import opened IssueRunModel

  /** Status, lease fields, retention time, alarm, event log and database row agree. */
  ghost predicate Coherent(hasDb: bool, s: Stored) {
    if s.record.None? then s.alarm.None? && s.eventLog.None?
    else
      var r := s.record.value;
      && (r.leaseSec.Some? ==> r.leaseSec.value > 0)
      && (r.status == Queued ==> r.leaseHolder.None? && r.leaseExpiresAt.None? && r.leaseSec.None? && s.alarm.None?)
      && (r.status == Dispatched ==> r.leaseExpiresAt.None? && s.alarm.None?)
      && (r.status == Running ==> r.leaseExpiresAt.Some? && r.leaseSec.Some? && r.startedAt.Some? && s.alarm == r.leaseExpiresAt)
      && (!IsTerminal(r.status) ==> r.endedAt.None? && r.terminalRetentionExpiresAt.None?)
      && (IsTerminal(r.status) ==>
            && r.leaseHolder.None? && r.leaseExpiresAt.None? && r.leaseSec.None? && s.eventLog.None?
            && r.endedAt.Some? && r.terminalRetentionExpiresAt == Some(r.endedAt.value + TERMINAL_RETENTION_MS)
            && s.alarm == r.terminalRetentionExpiresAt
            && r.runId.Some?
            && (hasDb ==> r.runId.value in s.rows && s.rows[r.runId.value].status == r.status
                          && s.rows[r.runId.value].endedAt == r.endedAt.value))
  }

  /** Any sequence of requests and alarms, with the storage before each and after the last. */
  datatype History = History(hasDb: bool, requests: seq<Request>, states: seq<Stored>) {
    ghost predicate IsValid() {
      && IsSized() && states[0] == EMPTY
      && forall i: nat {:trigger IsStepAt(i)} :: i < |requests| ==> IsStepAt(i)
    }

    predicate IsSized() {
      |states| == |requests| + 1
    }

    predicate IsStepAt(i: nat)
      requires IsSized() && i < |requests|
    {
      requests[i].IsWellFormed() && states[i + 1] == Handle(hasDb, states[i], requests[i]).0
    }

    function StateAt(i: nat): Stored
      requires IsSized() && i <= |requests|
    {
      states[i]
    }

    function ReplyAt(i: nat): Reply
      requires IsSized() && i < |requests|
    {
      Handle(hasDb, states[i], requests[i]).1
    }

    /** No worker has the run: there is no record, or it is queued. */
    predicate IsFree(i: nat)
      requires IsSized() && i <= |requests|
    {
      StateAt(i).record.None? || StateAt(i).record.value.status == Queued
    }

    predicate IsDone(i: nat)
      requires IsSized() && i <= |requests|
    {
      StateAt(i).record.Some? && IsTerminal(StateAt(i).record.value.status)
    }

    predicate Dispatches(i: nat)
      requires IsSized() && i < |requests|
    {
      requests[i].Dispatch? && ReplyAt(i) == Accepted
    }

    /** Request `i` deletes the record of a run that ended at least the retention time before. */
    predicate PrunesInTime(i: nat)
      requires IsSized() && i < |requests|
    {
      && IsDone(i) && StateAt(i + 1).record.None?
      && (requests[i].Alarm? || requests[i].Events?)
      && StateAt(i).record.value.endedAt.Some?
      && requests[i].now >= StateAt(i).record.value.endedAt.value + TERMINAL_RETENTION_MS
    }

    /** Request `i` takes the run back from its worker: the worker declines it, an operator revokes
        it, or the alarm finds the lease run out. */
    predicate TakesBack(i: nat)
      requires IsSized() && i < |requests|
    {
      && StateAt(i).record.Some? && StateAt(i).record.value.status in {Dispatched, Running}
      && ReplyAt(i) == Accepted
      && match requests[i]
         case Ack(_, accept, _) => accept == Some(false)
         case Revoke(_, _) => true
         case Alarm(now, _) =>
           StateAt(i).record.value.leaseExpiresAt.Some? && StateAt(i).record.value.leaseExpiresAt.value <= now
         case _ => false
    }
  }

  /** Every sequence of well-formed requests has its history. */
  lemma {:induction false} HistoryOf(hasDb: bool, requests: seq<Request>) returns (h: History)
    requires forall i :: 0 <= i < |requests| ==> requests[i].IsWellFormed()
    ensures h.hasDb == hasDb && h.requests == requests && h.IsValid()
  {
    if requests == [] {
      h := History(hasDb, [], [EMPTY]);
    } else {
      var n := |requests| - 1;
      var g := HistoryOf(hasDb, requests[..n]);
      h := History(hasDb, requests, g.states + [Handle(hasDb, g.states[n], requests[n]).0]);
      forall i: nat | i < |requests| ensures h.IsStepAt(i) {
        assert i < n ==> g.IsStepAt(i);
      }
    }
  }

  lemma MovedKeepsCoherent(hasDb: bool, s: Stored, next: RunStatus, now: int, lease: Lease)
    requires Coherent(hasDb, s) && s.record.Some? && CanTransition(s.record.value.status, next) && !IsTerminal(next)
    requires if next == Running then lease.SetLease? && lease.sec > 0 else next == Queued && lease == ClearLease
    ensures Coherent(hasDb, Moved(s, next, now, lease))
  {
  }

  lemma FinishedKeepsCoherent(hasDb: bool, s: Stored, body: Completion, now: int, persisted: bool, announced: bool)
    requires Coherent(hasDb, s) && s.record.Some? && s.record.value.status == Running && IsTerminal(body.status)
    ensures Coherent(hasDb, Finished(hasDb, s, body, now, persisted, announced).0)
  {
  }

  lemma ChangeKeepsCoherent(hasDb: bool, s: Stored, request: Request)
    requires Coherent(hasDb, s) && request.IsWellFormed()
    requires request.Ack? || request.Complete? || request.Cancel? || request.Revoke?
    ensures Coherent(hasDb, Handle(hasDb, s, request).0)
  {
    match request
    case Ack(now, accept, _) =>
      var t := Ensured(s, now);
      var sec := if t.record.value.leaseSec.Some? then t.record.value.leaseSec.value else DEFAULT_LEASE_SEC;
      if CanTransition(t.record.value.status, Running) {
        MovedKeepsCoherent(hasDb, t, Running, now, SetLease(now + sec * 1000, sec));
      }
      if CanTransition(t.record.value.status, Queued) {
        MovedKeepsCoherent(hasDb, t, Queued, now, ClearLease);
      }
    case Complete(now, _, body, persisted, announced) =>
      if body.Some? && s.record.Some? && s.record.value.status == Running {
        FinishedKeepsCoherent(hasDb, s, body.value, now, persisted, announced);
      }
    case Cancel(now, configHash, _, summary, _, persisted, announced) =>
      if s.record.Some? && s.record.value.status == Running {
        var hash := Or(configHash, s.record.value.configHash);
        if hash.Some? {
          FinishedKeepsCoherent(hasDb, s, Completion(Cancelled, summary, hash.value, None), now, persisted, announced);
        }
      }
    case Revoke(now, _) =>
      if s.record.Some? && CanTransition(s.record.value.status, Queued) {
        MovedKeepsCoherent(hasDb, s, Queued, now, ClearLease);
      }
  }

  lemma AlarmKeepsCoherent(hasDb: bool, s: Stored, now: int, revoked: bool)
    requires Coherent(hasDb, s)
    ensures Coherent(hasDb, Handle(hasDb, s, Alarm(now, revoked)).0)
  {
    if s.record.Some? && s.record.value.status == Running {
      MovedKeepsCoherent(hasDb, s, Queued, now, ClearLease);
    }
  }

  /** The inductive step: every request and every alarm keeps the coupling. */
  lemma HandleKeepsCoherent(hasDb: bool, s: Stored, request: Request)
    requires Coherent(hasDb, s) && request.IsWellFormed()
    ensures Coherent(hasDb, Handle(hasDb, s, request).0)
  {
    match request
    case Ack(_, _, _) => ChangeKeepsCoherent(hasDb, s, request);
    case Complete(_, _, _, _, _) => ChangeKeepsCoherent(hasDb, s, request);
    case Cancel(_, _, _, _, _, _, _) => ChangeKeepsCoherent(hasDb, s, request);
    case Revoke(_, _) => ChangeKeepsCoherent(hasDb, s, request);
    case Alarm(now, revoked) => AlarmKeepsCoherent(hasDb, s, now, revoked);
    case _ =>
  }

  lemma {:induction false} AlwaysCoherent(h: History, i: nat)
    requires i <= |h.requests| && h.IsValid()
    ensures Coherent(h.hasDb, h.StateAt(i))
  {
    if i > 0 {
      AlwaysCoherent(h, i - 1);
      assert h.IsStepAt(i - 1);
      HandleKeepsCoherent(h.hasDb, h.StateAt(i - 1), h.requests[i - 1]);
    }
  }

  /** A run is freed only by being taken back or by being pruned after its retention time. */
  lemma {:induction false} FreedOnlyBy(h: History, k: nat)
    requires k < |h.requests| && h.IsValid() && !h.IsFree(k) && h.IsFree(k + 1)
    ensures h.TakesBack(k) || h.PrunesInTime(k)
  {
    AlwaysCoherent(h, k);
    assert h.IsStepAt(k);
  }

  lemma DispatchTakes(h: History, i: nat)
    requires i < |h.requests| && h.IsValid() && h.Dispatches(i)
    ensures h.IsFree(i) && !h.IsFree(i + 1)
  {
    assert h.IsStepAt(i);
  }

  /** Two accepted dispatches are separated by a request that took the run back from the first
      worker, or that pruned a finished run after its retention time. */
  lemma {:induction false} DispatchesAreSeparated(h: History, i: nat, j: nat) returns (k: nat)
    requires i < j < |h.requests| && h.IsValid() && h.Dispatches(i) && h.Dispatches(j)
    ensures i < k < j && (h.TakesBack(k) || h.PrunesInTime(k))
  {
    DispatchTakes(h, i);
    DispatchTakes(h, j);
    k := j - 1;
    while !(!h.IsFree(k) && h.IsFree(k + 1))
      invariant i <= k < j && h.IsFree(k + 1)
      decreases k
    {
      assert k != i;
      k := k - 1;
    }
    assert k != i;
    FreedOnlyBy(h, k);
  }

  predicate IsActive(s: Stored) {
    s.record.Some? && s.record.value.status in {Dispatched, Running}
  }

  /** The lease length that a record of an active run has after a dispatch asked for `asked`. */
  function LeaseSecFor(status: RunStatus, asked: Option<int>): Option<int> {
    if status == Running then Or(asked, Some(DEFAULT_LEASE_SEC)) else asked
  }

  /** The active run was dispatched to this worker with this lease length. */
  predicate IsGivenTo(s: Stored, worker: Option<string>, leaseSec: Option<int>) {
    && IsActive(s) && s.record.value.leaseHolder == worker
    && s.record.value.leaseSec == LeaseSecFor(s.record.value.status, leaseSec)
  }

  /** Only an accepted dispatch makes a run active, and nothing else names a holder or a lease length. */
  lemma ActiveComesFromDispatch(hasDb: bool, s: Stored, request: Request, worker: Option<string>, leaseSec: Option<int>)
    requires Coherent(hasDb, s) && request.IsWellFormed() && (IsActive(s) ==> IsGivenTo(s, worker, leaseSec))
    ensures var (after, reply) := Handle(hasDb, s, request);
            IsActive(after) ==>
              if request.Dispatch? && reply == Accepted then IsGivenTo(after, request.worker, request.leaseSec)
              else IsActive(s) && IsGivenTo(after, worker, leaseSec)
  {
  }

  /** An active run was given to its holder by the latest accepted dispatch, with the lease length that
      dispatch asked for or the default, and has been active ever since. */
  lemma {:induction false} ActiveSinceDispatch(h: History, i: nat) returns (d: nat)
    requires i <= |h.requests| && h.IsValid() && IsActive(h.StateAt(i))
    ensures d < i && h.Dispatches(d) && IsGivenTo(h.StateAt(i), h.requests[d].worker, h.requests[d].leaseSec)
    ensures forall k :: d < k <= i ==> IsActive(h.StateAt(k))
    ensures forall k :: d < k < i ==> !h.Dispatches(k)
  {
    var m: nat := i - 1;
    if IsActive(h.StateAt(m)) {
      d := ActiveSinceDispatch(h, m);
      ActiveStep(h, m, h.requests[d].worker, h.requests[d].leaseSec);
    } else {
      d := m;
      ActiveStep(h, m, None, None);
    }
  }

  /** A run becomes active by a dispatch, and stays with the worker and the lease length it was given. */
  lemma ActiveStep(h: History, m: nat, worker: Option<string>, leaseSec: Option<int>)
    requires m < |h.requests| && h.IsValid() && IsActive(h.StateAt(m + 1))
    requires IsActive(h.StateAt(m)) ==> IsGivenTo(h.StateAt(m), worker, leaseSec)
    ensures if IsActive(h.StateAt(m)) then !h.Dispatches(m) && IsGivenTo(h.StateAt(m + 1), worker, leaseSec)
            else h.Dispatches(m) && IsGivenTo(h.StateAt(m + 1), h.requests[m].worker, h.requests[m].leaseSec)
  {
    AlwaysCoherent(h, m);
    assert h.IsStepAt(m);
    ActiveComesFromDispatch(h.hasDb, h.StateAt(m), h.requests[m], worker, leaseSec);
  }

  /** Request `i` is a sign of life from the worker: it takes the run on, or renews its lease. */
  predicate IsContact(h: History, i: nat)
    requires h.IsSized() && i < |h.requests|
  {
    h.ReplyAt(i) == Accepted && (h.requests[i].Heartbeat? || (h.requests[i].Ack? && h.requests[i].accept == Some(true)))
  }

  predicate IsRunning(s: Stored) {
    s.record.Some? && s.record.value.status == Running && s.record.value.leaseSec.Some?
  }

  predicate ExpiresFrom(s: Stored, contact: int) {
    IsRunning(s) && s.record.value.leaseExpiresAt == Some(contact + s.record.value.leaseSec.value * 1000)
  }

  lemma RunningStep(hasDb: bool, s: Stored, request: Request)
    requires Coherent(hasDb, s) && request.IsWellFormed()
    ensures var (after, reply) := Handle(hasDb, s, request);
            IsRunning(after) ==>
              if reply == Accepted && (request.Heartbeat? || (request.Ack? && request.accept == Some(true)))
              then ExpiresFrom(after, request.now)
              else && IsRunning(s) && after.record.value.leaseExpiresAt == s.record.value.leaseExpiresAt
                   && after.record.value.leaseSec == s.record.value.leaseSec
  {
  }

  /** The lease of a running run expires one lease length after the worker's latest sign of life. */
  lemma {:induction false} LeaseFollowsContact(h: History, i: nat) returns (c: nat)
    requires i <= |h.requests| && h.IsValid() && IsRunning(h.StateAt(i))
    ensures c < i && IsContact(h, c) && ExpiresFrom(h.StateAt(i), h.requests[c].now)
    ensures forall k :: c < k < i ==> !IsContact(h, k)
  {
    AlwaysCoherent(h, i - 1);
    assert h.IsStepAt(i - 1);
    RunningStep(h.hasDb, h.StateAt(i - 1), h.requests[i - 1]);
    if IsContact(h, i - 1) {
      c := i - 1;
    } else {
      c := LeaseFollowsContact(h, i - 1);
    }
  }

  /** An accepted completion comes from the current lease holder, which the latest dispatch named,
      strictly before the lease expires; it sets the requested status and leaves a database row
      that says the same. */
  lemma {:induction false} CompletionIsFromHolder(h: History, i: nat) returns (d: nat)
    requires i < |h.requests| && h.IsValid() && h.requests[i].Complete? && h.ReplyAt(i) == Accepted
    ensures var before := h.StateAt(i).record;
            && before.Some? && before.value.status == Running
            && before.value.leaseHolder.Some? && before.value.leaseHolder == h.requests[i].worker
            && before.value.leaseExpiresAt.Some? && h.requests[i].now < before.value.leaseExpiresAt.value
    ensures d < i && h.Dispatches(d) && h.requests[d].worker == h.requests[i].worker
    ensures forall k :: d < k <= i ==> IsActive(h.StateAt(k))
    ensures var after := h.StateAt(i + 1).record;
            && after.Some? && after.value.status == h.requests[i].body.value.status
            && after.value.endedAt == Some(h.requests[i].now)
            && (h.hasDb ==> after.value.runId.Some? && after.value.runId.value in h.StateAt(i + 1).rows
                            && h.StateAt(i + 1).rows[after.value.runId.value].status == after.value.status)
  {
    AlwaysCoherent(h, i);
    AlwaysCoherent(h, i + 1);
    assert h.IsStepAt(i);
    d := ActiveSinceDispatch(h, i);
  }

  /** The run has ended with this status at this time. */
  predicate EndedWith(s: Stored, status: RunStatus, endedAt: Option<int>) {
    s.record.Some? && IsTerminal(status) && s.record.value.status == status && s.record.value.endedAt == endedAt
  }

  lemma TerminalStep(hasDb: bool, s: Stored, request: Request, status: RunStatus, endedAt: Option<int>)
    requires Coherent(hasDb, s) && EndedWith(s, status, endedAt)
    ensures
      var after := Handle(hasDb, s, request).0;
      || EndedWith(after, status, endedAt)
      || (after.record.None? && (request.Alarm? || request.Events?)
          && endedAt.Some? && request.now >= endedAt.value + TERMINAL_RETENTION_MS)
  {
  }

  /** A terminal run never changes its status or end time; it can only be pruned, and not before
      its retention time. */
  lemma {:induction false} TerminalIsForever(h: History, i: nat, j: nat)
    requires i <= j <= |h.requests| && h.IsValid() && h.IsDone(i)
    ensures
      || (exists k: nat :: i <= k < j && h.PrunesInTime(k))
      || EndedWith(h.StateAt(j), h.StateAt(i).record.value.status, h.StateAt(i).record.value.endedAt)
    decreases j
  {
    if i < j {
      var status, endedAt := h.StateAt(i).record.value.status, h.StateAt(i).record.value.endedAt;
      TerminalIsForever(h, i, j - 1);
      if EndedWith(h.StateAt(j - 1), status, endedAt) {
        AlwaysCoherent(h, j - 1);
        assert h.IsStepAt(j - 1);
        TerminalStep(h.hasDb, h.StateAt(j - 1), h.requests[j - 1], status, endedAt);
        assert EndedWith(h.StateAt(j), status, endedAt) || h.PrunesInTime(j - 1);
      }
    }
  }

  /** Leases are not lost: whenever a run is running, the alarm that fires at its expiry takes it
      back, and an alarm that fires early changes nothing. */
  lemma {:induction false} AlarmEnforcesLease(h: History, i: nat, now: int)
    requires i <= |h.requests| && h.IsValid()
    requires h.StateAt(i).record.Some? && h.StateAt(i).record.value.status == Running
    ensures var s := h.StateAt(i); var fired := Handle(h.hasDb, s, Alarm(now, true)).0;
            && s.alarm.Some?
            && if now < s.alarm.value then fired == s
               else fired.record.value.status == Queued && fired.record.value.leaseHolder.None? && fired.alarm.None?
  {
    AlwaysCoherent(h, i);
  }

  // ---------------------------------------------------------------------------------------------
  // Rows in the database
  // ---------------------------------------------------------------------------------------------

  /** The row was written, and then the announcement threw. */
  predicate AbortsAfterPersisting(hasDb: bool, request: Request, reply: Reply) {
    && hasDb && reply == Aborted
    && ((request.Complete? && request.persisted && !request.announced)
        || (request.Cancel? && request.revoked && request.persisted && !request.announced))
  }

  /** The record of a run that has not ended. */
  predicate IsOpen(s: Stored, runId: string) {
    s.record.Some? && s.record.value.runId == Some(runId) && !IsTerminal(s.record.value.status)
  }

  /** While a run has not ended, only its own row can appear, and only by an announcement that aborts. */
  lemma OpenStep(hasDb: bool, s: Stored, request: Request, runId: string)
    requires Coherent(hasDb, s) && request.IsWellFormed() && IsOpen(s, runId)
    ensures var (after, reply) := Handle(hasDb, s, request);
            && (IsOpen(after, runId) ==>
                  (runId in after.rows <==> runId in s.rows || AbortsAfterPersisting(hasDb, request, reply)))
            && (!IsOpen(after, runId) ==> after.record.Some? && IsTerminal(after.record.value.status))
  {
  }

  /** A record of an open run was there before, or was made by this request, which leaves the rows alone. */
  lemma OpenedStep(hasDb: bool, s: Stored, request: Request, runId: string)
    requires Coherent(hasDb, s) && request.IsWellFormed() && IsOpen(Handle(hasDb, s, request).0, runId)
    ensures IsOpen(s, runId) || (s.record.None? && Handle(hasDb, s, request).0.rows == s.rows)
  {
  }

  /** Request `k` aborts after writing the row of the run. */
  predicate AbortsAt(h: History, k: nat)
    requires h.IsSized() && k < |h.requests|
  {
    AbortsAfterPersisting(h.hasDb, h.requests[k], h.ReplyAt(k))
  }

  /** The run has been open since request `c` made its record. */
  ghost predicate IsOpenSince(h: History, runId: string, c: nat, i: nat)
    requires h.IsSized() && i <= |h.requests|
  {
    c < i && h.StateAt(c).record.None? && forall k :: c < k <= i ==> IsOpen(h.StateAt(k), runId)
  }

  /** A run that has not ended has a row if and only if there was one before its record was made, or an
      announcement aborted after persisting since. */
  lemma {:induction false} OpenRunHasRowIff(h: History, i: nat, runId: string) returns (c: nat)
    requires i <= |h.requests| && h.IsValid() && IsOpen(h.StateAt(i), runId)
    ensures IsOpenSince(h, runId, c, i)
    ensures runId in h.StateAt(i).rows <==> runId in h.StateAt(c).rows || exists k: nat :: c < k < i && AbortsAt(h, k)
  {
    var m: nat := i - 1;
    OpenAt(h, m, runId);
    if IsOpen(h.StateAt(m), runId) {
      c := OpenRunHasRowIff(h, m, runId);
    } else {
      c := m;
    }
  }

  lemma OpenAt(h: History, m: nat, runId: string)
    requires m < |h.requests| && h.IsValid() && IsOpen(h.StateAt(m + 1), runId)
    ensures if IsOpen(h.StateAt(m), runId)
            then runId in h.StateAt(m + 1).rows <==> runId in h.StateAt(m).rows || AbortsAt(h, m)
            else h.StateAt(m).record.None? && h.StateAt(m + 1).rows == h.StateAt(m).rows
  {
    AlwaysCoherent(h, m);
    assert h.IsStepAt(m);
    OpenedStep(h.hasDb, h.StateAt(m), h.requests[m], runId);
    if IsOpen(h.StateAt(m), runId) {
      OpenStep(h.hasDb, h.StateAt(m), h.requests[m], runId);
    }
  }

  /** An announcement that fails after the row was written, followed by the alarm at the end of the lease. */
  lemma LostAnnouncement(hasDb: bool, s: Stored, complete: Request, alarm: Request)
    requires hasDb && s.record.Some? && s.record.value.status == Running && s.record.value.leaseExpiresAt.Some?
    requires complete.Complete? && complete.body.Some? && complete.persisted && !complete.announced
    requires complete.worker == s.record.value.leaseHolder && complete.now < s.record.value.leaseExpiresAt.value
    requires CompletionRow(s.record.value, complete.body.value, complete.now).Some?
    requires alarm.Alarm? && alarm.revoked && alarm.now >= s.record.value.leaseExpiresAt.value
    ensures var t := Handle(hasDb, Handle(hasDb, s, complete).0, alarm).0;
            var runId := s.record.value.runId.value;
            && t.record.Some? && t.record.value.status == Queued
            && runId in t.rows && t.rows[runId].status == complete.body.value.status
  {
  }

  /** A history after which a run is queued again while its row says that it succeeded: dispatched, taken on,
      completed with an announcement that fails, and taken back by the alarm. */
  lemma QueuedWithSucceededRow() returns (h: History)
    ensures h.IsValid() && |h.requests| == 4
    ensures var s := h.StateAt(4);
            s.record.Some? && s.record.value.status == Queued && "r" in s.rows && s.rows["r"].status == Succeeded
  {
    var dispatch := Dispatch(0, Some("r"), Some("t"), Some("i"), Some("w"), Some(60), Some("k"), None);
    var ack, alarm := Ack(0, Some(true), Some("w")), Alarm(60000, true);
    var complete := Complete(1, Some("w"), Some(Completion(Succeeded, "", "", None)), true, false);
    var given := Handle(true, EMPTY, dispatch).0;
    var taken := Handle(true, given, ack).0;
    var saved := Handle(true, taken, complete).0;
    LostAnnouncement(true, taken, complete, alarm);
    h := History(true, [dispatch, ack, complete, alarm], [EMPTY, given, taken, saved, Handle(true, saved, alarm).0]);
    assert h.IsStepAt(0) && h.IsStepAt(1) && h.IsStepAt(2) && h.IsStepAt(3);
  }
}
