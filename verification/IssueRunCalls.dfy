/** When each request to an issue run is accepted, told from the requests before it, and what it then does
    (cloud/src/do/issue-run.ts:177-288, 327-628). */
module IssueRunCalls {
  import opened Options
  import opened IssueRunModel
  import opened IssueRunRuns

  predicate Has(s: Stored, status: RunStatus) {
    s.record.Some? && s.record.value.status == status
  }

  /** The worker is the one that the dispatch named, if it named one. */
  predicate IsFrom(worker: Option<string>, named: Option<string>) {
    named.None? || worker == named
  }

  /** The worker is not another one than the dispatch named. */
  predicate IsNotFromOther(worker: Option<string>, named: Option<string>) {
    named.None? || worker.None? || worker == named
  }

  /** Only time stamps, the expiry and the alarm differ. */
  predicate OnlyRenewed(s: Stored, t: Stored, now: int, expiresAt: int) {
    && s.record.Some? && t.eventLog == s.eventLog && t.rows == s.rows && t.alarm == Some(expiresAt)
    && t.record == Some(s.record.value.(updatedAt := now, leaseExpiresAt := Some(expiresAt)))
  }

  // ---------------------------------------------------------------------------------------------
  // Dispatch, acknowledgement, heartbeat
  // ---------------------------------------------------------------------------------------------

  /** A dispatch is accepted if and only if nobody has the run; it then names the worker and the lease
      length, and an earlier record keeps whose run it is. */
  lemma DispatchAcceptedIff(h: History, i: nat)
    requires i < |h.requests| && h.IsValid() && h.requests[i].Dispatch?
    ensures h.ReplyAt(i) == Accepted <==> h.StateAt(i).record.None? || Has(h.StateAt(i), Queued)
    ensures h.ReplyAt(i) != Accepted ==> h.ReplyAt(i) == Refused("lease_already_held") && h.StateAt(i + 1) == h.StateAt(i)
    ensures h.ReplyAt(i) == Accepted ==>
              var r, s, t := h.requests[i], h.StateAt(i), h.StateAt(i + 1);
              && Has(t, Dispatched) && IsGivenTo(t, r.worker, r.leaseSec)
              && t.alarm == s.alarm && t.eventLog == s.eventLog && t.rows == s.rows
              && t.record.value.runId == (if s.record.None? then r.runId else s.record.value.runId)
              && t.record.value.teamId == (if s.record.None? then r.teamId else s.record.value.teamId)
              && t.record.value.issueRef == (if s.record.None? then r.issueRef else s.record.value.issueRef)
              && (r.workerKind.Some? ==> t.record.value.workerKind == r.workerKind)
              && (r.configHash.Some? ==> t.record.value.configHash == r.configHash)
  {
    AlwaysCoherent(h, i);
    assert h.IsStepAt(i);
  }

  /** A worker takes a run on if and only if it is dispatched, and not to another worker; a run is declined,
      by anyone, if and only if it is dispatched or running. */
  lemma AckAcceptedIff(h: History, i: nat) returns (d: nat)
    requires i < |h.requests| && h.IsValid() && h.requests[i].Ack?
    ensures d < |h.requests|
    ensures IsActive(h.StateAt(i)) ==>
              IsLatestDispatch(h, d, i) && IsGivenTo(h.StateAt(i), h.requests[d].worker, h.requests[d].leaseSec)
    ensures h.requests[i].accept == Some(true) ==>
              (h.ReplyAt(i) == Accepted <==>
                 Has(h.StateAt(i), Dispatched) && IsNotFromOther(h.requests[i].worker, h.requests[d].worker))
    ensures h.requests[i].accept == Some(false) ==>
              (h.ReplyAt(i) == Accepted <==> Has(h.StateAt(i), Dispatched) || Has(h.StateAt(i), Running))
    ensures h.requests[i].accept == None ==> h.ReplyAt(i) == Refused("invalid_request")
    ensures h.ReplyAt(i) == Accepted ==> Has(h.StateAt(i + 1), if h.requests[i].accept == Some(true) then Running else Queued)
  {
    d := LatestDispatch(h, i);
    AlwaysCoherent(h, i);
    assert h.IsStepAt(i);
  }

  ghost predicate IsLatestDispatch(h: History, d: nat, i: nat)
    requires h.IsSized() && i <= |h.requests|
  {
    && d < i && h.Dispatches(d)
    && (forall k :: d < k < i ==> !h.Dispatches(k)) && (forall k :: d < k <= i ==> IsActive(h.StateAt(k)))
  }

  lemma LatestDispatch(h: History, i: nat) returns (d: nat)
    requires i < |h.requests| && h.IsValid()
    ensures d < |h.requests|
    ensures IsActive(h.StateAt(i)) ==>
              IsLatestDispatch(h, d, i) && IsGivenTo(h.StateAt(i), h.requests[d].worker, h.requests[d].leaseSec)
  {
    d := 0;
    if IsActive(h.StateAt(i)) {
      d := ActiveSinceDispatch(h, i);
    }
  }

  /** A heartbeat is accepted if and only if the run is running, it comes from the worker that the latest
      dispatch named, and it comes before one lease length, 60 seconds unless the dispatch asked for
      another, has passed since the last sign of life; it then counts as one, and changes nothing else. */
  lemma HeartbeatAcceptedIff(h: History, i: nat) returns (d: nat, c: nat, length: int)
    requires i < |h.requests| && h.IsValid() && h.requests[i].Heartbeat?
    ensures IsActive(h.StateAt(i)) ==> IsLatestDispatch(h, d, i)
    ensures Has(h.StateAt(i), Running) ==> IsLatestContact(h, c, i)
    ensures d < |h.requests| && c < |h.requests|
    ensures length == (if h.requests[d].Dispatch? && h.requests[d].leaseSec.Some? then h.requests[d].leaseSec.value else 60) * 1000
    ensures h.ReplyAt(i) == Accepted <==>
              && Has(h.StateAt(i), Running) && h.requests[d].Dispatch?
              && IsFrom(h.requests[i].worker, h.requests[d].worker)
              && h.requests[i].now < h.requests[c].now + length
    ensures if h.ReplyAt(i) == Accepted
            then OnlyRenewed(h.StateAt(i), h.StateAt(i + 1), h.requests[i].now, h.requests[i].now + length)
            else h.StateAt(i + 1) == h.StateAt(i)
  {
    c := 0;
    d := LatestDispatch(h, i);
    length := (if h.requests[d].Dispatch? && h.requests[d].leaseSec.Some? then h.requests[d].leaseSec.value else 60) * 1000;
    AlwaysCoherent(h, i);
    assert h.IsStepAt(i);
    if Has(h.StateAt(i), Running) {
      c := LeaseFollowsContact(h, i);
    }
  }

  ghost predicate IsLatestContact(h: History, c: nat, i: nat)
    requires h.IsSized() && i <= |h.requests|
  {
    c < i && IsContact(h, c) && forall k :: c < k < i ==> !IsContact(h, k)
  }

  /** Every sign of life came from the worker that the latest dispatch before it named: a heartbeat from that
      worker itself, an acknowledgement not from another. */
  lemma ContactIsFromHolder(h: History, i: nat) returns (d: nat)
    requires i < |h.requests| && h.IsValid() && IsContact(h, i)
    ensures IsLatestDispatch(h, d, i)
    ensures h.requests[i].Heartbeat? ==> IsFrom(h.requests[i].worker, h.requests[d].worker)
    ensures h.requests[i].Ack? ==> IsNotFromOther(h.requests[i].worker, h.requests[d].worker)
  {
    if h.requests[i].Heartbeat? {
      var c, length;
      d, c, length := HeartbeatAcceptedIff(h, i);
    } else {
      d := AckAcceptedIff(h, i);
    }
  }

  /** Why a heartbeat is refused. */
  lemma HeartbeatIsRefusedFor(h: History, i: nat)
    requires i < |h.requests| && h.IsValid() && h.requests[i].Heartbeat? && h.ReplyAt(i) != Accepted
    ensures
      var s := h.StateAt(i);
      h.ReplyAt(i) == Refused(
        if s.record.None? then "run_unknown"
        else if h.IsDone(i) then "run_terminal"
        else if !Has(s, Running) then "lease_revoked"
        else if !IsFrom(h.requests[i].worker, s.record.value.leaseHolder) then "lease_holder_mismatch"
        else "lease_revoked")
  {
    AlwaysCoherent(h, i);
  }

  // ---------------------------------------------------------------------------------------------
  // Events
  // ---------------------------------------------------------------------------------------------

  /** An event batch is stored if and only if the run is running, it is known whose run it is, the batch does
      not come from another worker than the dispatch named, and it is well formed. It is accepted if it is
      forwarded too. */
  lemma BatchStoredIff(h: History, i: nat) returns (d: nat)
    requires i < |h.requests| && h.IsValid() && h.requests[i].Events?
    ensures IsActive(h.StateAt(i)) ==> IsLatestDispatch(h, d, i)
    ensures d < |h.requests|
    ensures h.ReplyAt(i) in {Accepted, Aborted} <==>
              && Has(h.StateAt(i), Running) && h.requests[i].batch.Lines? && h.requests[d].Dispatch?
              && h.StateAt(i).record.value.teamId.Some? && h.StateAt(i).record.value.runId.Some?
              && IsNotFromOther(h.requests[i].worker, h.requests[d].worker)
    ensures h.ReplyAt(i) in {Accepted, Aborted} ==> (h.ReplyAt(i) == Accepted <==> h.requests[i].forwarded)
    ensures h.ReplyAt(i) in {Accepted, Aborted} ==>
              h.StateAt(i + 1) == h.StateAt(i).(eventLog := Some(Logged(h.StateAt(i)) + h.requests[i].batch.events))
  {
    d := LatestDispatch(h, i);
    AlwaysCoherent(h, i);
    assert h.IsStepAt(i);
  }

  function Logged(s: Stored): seq<string> {
    if s.eventLog.Some? then s.eventLog.value else []
  }

  /** The batches stored since the run was last without a record or at an end, one after the other. */
  function StoredBatches(h: History, i: nat): seq<string>
    requires h.IsSized() && i <= |h.requests|
  {
    if i == 0 || h.StateAt(i).record.None? || h.IsDone(i) then []
    else
      var m := i - 1;
      StoredBatches(h, m) +
        if h.requests[m].Events? && h.ReplyAt(m) in {Accepted, Aborted} && h.requests[m].batch.Lines?
        then h.requests[m].batch.events else []
  }

  /** The event log is the concatenation of the batches stored in the life of the run: nothing is lost,
      doubled or reordered until the run ends. */
  lemma {:induction false} LogIsStoredBatches(h: History, i: nat)
    requires i <= |h.requests| && h.IsValid()
    ensures Logged(h.StateAt(i)) == StoredBatches(h, i)
  {
    AlwaysCoherent(h, i);
    if i > 0 && h.StateAt(i).record.Some? && !h.IsDone(i) {
      LogIsStoredBatches(h, i - 1);
      LogStep(h, i - 1);
    }
  }

  lemma LogStep(h: History, m: nat)
    requires m < |h.requests| && h.IsValid() && h.StateAt(m + 1).record.Some? && !h.IsDone(m + 1)
    ensures Logged(h.StateAt(m + 1)) == Logged(h.StateAt(m)) +
              if h.requests[m].Events? && h.ReplyAt(m) in {Accepted, Aborted} && h.requests[m].batch.Lines?
              then h.requests[m].batch.events else []
  {
    AlwaysCoherent(h, m);
    assert h.IsStepAt(m);
    if h.requests[m].Events? {
      var d := BatchStoredIff(h, m);
    } else {
      OthersKeepLog(h.hasDb, h.StateAt(m), h.requests[m]);
    }
  }

  lemma OthersKeepLog(hasDb: bool, s: Stored, request: Request)
    requires Coherent(hasDb, s) && request.IsWellFormed() && !request.Events?
    ensures var t := Handle(hasDb, s, request).0;
            t.record.Some? && !IsTerminal(t.record.value.status) ==> Logged(t) == Logged(s)
  {
  }

  // ---------------------------------------------------------------------------------------------
  // The end of a run
  // ---------------------------------------------------------------------------------------------

  /** It is known whose run it is, who runs it and what kind of worker that is. */
  predicate IsComplete(r: RunRecord) {
    r.runId.Some? && r.teamId.Some? && r.issueRef.Some? && r.leaseHolder.Some? && r.workerKind.Some?
  }

  /** The row and the terminal record that a run ends with. */
  predicate EndsAs(
    hasDb: bool, s: Stored, t: Stored, status: RunStatus, summary: string, hash: string, errorClass: Option<string>, now: int)
    requires s.record.Some? && IsComplete(s.record.value)
  {
    var r := s.record.value;
    && EndedWith(t, status, Some(now))
    && t.record.value.runId == r.runId && t.record.value.leaseHolder.None? && t.eventLog.None?
    && t.alarm == Some(now + 86_400_000)
    && t.rows == if !hasDb then s.rows else s.rows[r.runId.value := RunRow(
         r.teamId.value, r.issueRef.value, r.leaseHolder.value, r.workerKind.value,
         if r.startedAt.Some? then r.startedAt.value else r.createdAt, now, status, summary, hash,
         if status == Failed then errorClass else None)]
  }

  /** A completion is accepted if and only if the run is running and its metadata are complete, the worker is
      the one that the latest dispatch named, strictly before the lease expires, and both outbound calls go
      through. The run then has the requested status, and its row says everything about it. */
  lemma CompletionAcceptedIff(h: History, i: nat) returns (d: nat, c: nat, length: int)
    requires i < |h.requests| && h.IsValid() && h.requests[i].Complete?
    ensures IsActive(h.StateAt(i)) ==> IsLatestDispatch(h, d, i)
    ensures Has(h.StateAt(i), Running) ==> IsLatestContact(h, c, i)
    ensures d < |h.requests| && c < |h.requests|
    ensures length == (if h.requests[d].Dispatch? && h.requests[d].leaseSec.Some? then h.requests[d].leaseSec.value else 60) * 1000
    ensures h.ReplyAt(i) == Accepted <==>
              && Has(h.StateAt(i), Running) && h.requests[d].Dispatch? && h.requests[i].body.Some?
              && IsComplete(h.StateAt(i).record.value)
              && h.requests[i].worker == h.requests[d].worker
              && h.requests[i].now < h.requests[c].now + length
              && (h.hasDb ==> h.requests[i].persisted) && h.requests[i].announced
    ensures h.ReplyAt(i) == Accepted ==>
              var body := h.requests[i].body.value;
              IsComplete(h.StateAt(i).record.value)
              && EndsAs(h.hasDb, h.StateAt(i), h.StateAt(i + 1), body.status, body.summary, body.finalConfigHash,
                        body.errorClass, h.requests[i].now)
  {
    c := 0;
    d := LatestDispatch(h, i);
    length := (if h.requests[d].Dispatch? && h.requests[d].leaseSec.Some? then h.requests[d].leaseSec.value else 60) * 1000;
    AlwaysCoherent(h, i);
    assert h.IsStepAt(i);
    if Has(h.StateAt(i), Running) {
      c := LeaseFollowsContact(h, i);
    }
  }

  /** A cancellation is accepted if and only if the run is running, its metadata are complete, a configuration
      hash is given or was dispatched, and all outbound calls go through; the run then is cancelled. */
  lemma CancelAcceptedIff(h: History, i: nat)
    requires i < |h.requests| && h.IsValid() && h.requests[i].Cancel?
    ensures h.ReplyAt(i) == Accepted <==>
              && Has(h.StateAt(i), Running) && IsComplete(h.StateAt(i).record.value)
              && (h.requests[i].configHash.Some? || h.StateAt(i).record.value.configHash.Some?) && h.requests[i].artifactsValid
              && h.requests[i].revoked && (h.hasDb ==> h.requests[i].persisted) && h.requests[i].announced
    ensures h.ReplyAt(i) == Accepted ==>
              var r := h.requests[i];
              var hash := if r.configHash.Some? then r.configHash.value else h.StateAt(i).record.value.configHash.value;
              IsComplete(h.StateAt(i).record.value)
              && EndsAs(h.hasDb, h.StateAt(i), h.StateAt(i + 1), Cancelled, r.summary, hash, None, r.now)
  {
    AlwaysCoherent(h, i);
    assert h.IsStepAt(i);
  }

  /** A run is revoked if and only if a worker has it and the worker can be told; it then is queued again. */
  lemma RevokeAcceptedIff(h: History, i: nat)
    requires i < |h.requests| && h.IsValid() && h.requests[i].Revoke?
    ensures h.ReplyAt(i) == Accepted <==>
              (Has(h.StateAt(i), Dispatched) || Has(h.StateAt(i), Running)) && h.requests[i].revoked
    ensures h.ReplyAt(i) == Accepted ==>
              Has(h.StateAt(i + 1), Queued) && h.StateAt(i + 1).record.value.leaseHolder.None?
              && h.StateAt(i + 1).rows == h.StateAt(i).rows && h.StateAt(i + 1).eventLog == h.StateAt(i).eventLog
    ensures h.ReplyAt(i) != Accepted ==> h.StateAt(i + 1) == h.StateAt(i)
  {
    AlwaysCoherent(h, i);
    assert h.IsStepAt(i);
  }

  /** Reading the state creates a queued record without metadata if there is none, and changes nothing else. */
  lemma StateCreatesQueued(h: History, i: nat)
    requires i < |h.requests| && h.IsValid() && h.requests[i].GetState?
    ensures h.ReplyAt(i) == Accepted
    ensures h.StateAt(i).record.Some? ==> h.StateAt(i + 1) == h.StateAt(i)
    ensures h.StateAt(i).record.None? ==>
              && Has(h.StateAt(i + 1), Queued) && h.StateAt(i + 1).record.value.runId.None?
              && h.StateAt(i + 1).record.value.teamId.None? && h.StateAt(i + 1).record.value.issueRef.None?
              && h.StateAt(i + 1) == h.StateAt(i).(record := h.StateAt(i + 1).record)
  {
    assert h.IsStepAt(i);
  }

  /** Late event batches are counted, one by one, on a run that has ended. */
  lemma LateBatchIsCounted(h: History, i: nat)
    requires i < |h.requests| && h.IsValid() && h.requests[i].Events? && h.IsDone(i)
    requires h.StateAt(i).record.value.endedAt.Some?
    requires h.requests[i].now < h.StateAt(i).record.value.endedAt.value + 86_400_000
    ensures h.ReplyAt(i) == Refused("run_terminal") && h.IsDone(i + 1)
    ensures h.StateAt(i + 1).record.value.lateEvents == Some(LateCount(h.StateAt(i)) + 1)
    ensures h.StateAt(i + 1).eventLog.None? && h.StateAt(i + 1).rows == h.StateAt(i).rows && h.StateAt(i + 1).alarm == h.StateAt(i).alarm
  {
    AlwaysCoherent(h, i);
    assert h.IsStepAt(i);
  }

  function LateCount(s: Stored): int
    requires s.record.Some?
  {
    if s.record.value.lateEvents.Some? then s.record.value.lateEvents.value else 0
  }

  /** A record is pruned, by the alarm or a late batch, exactly from 24 hours after its end on. */
  lemma PrunedIff(h: History, i: nat)
    requires i < |h.requests| && h.IsValid() && h.IsDone(i)
    ensures h.StateAt(i).record.value.endedAt.Some?
    ensures h.StateAt(i + 1).record.None? <==>
              && (h.requests[i].Alarm? || h.requests[i].Events?)
              && h.requests[i].now >= h.StateAt(i).record.value.endedAt.value + 86_400_000
    ensures h.StateAt(i + 1).record.None? ==> h.StateAt(i + 1) == Stored(None, None, None, h.StateAt(i).rows)
  {
    AlwaysCoherent(h, i);
    assert h.IsStepAt(i);
  }

  // ---------------------------------------------------------------------------------------------
  // Times
  // ---------------------------------------------------------------------------------------------

  /** A worker takes the run on. */
  predicate TakesOn(h: History, k: nat)
    requires h.IsSized() && k < |h.requests|
  {
    h.requests[k].Ack? && h.requests[k].accept == Some(true) && h.ReplyAt(k) == Accepted
  }

  lemma TimesStep(hasDb: bool, s: Stored, request: Request)
    requires Coherent(hasDb, s) && request.IsWellFormed()
    ensures var (t, reply) := Handle(hasDb, s, request);
            t.record.Some? ==>
              && t.record.value.createdAt == (if s.record.Some? then s.record.value.createdAt else request.now)
              && (s.record.Some? && s.record.value.startedAt.Some? ==> t.record.value.startedAt == s.record.value.startedAt)
              && (s.record.None? || s.record.value.startedAt.None? ==>
                    (t.record.value.startedAt.Some? <==> request.Ack? && request.accept == Some(true) && reply == Accepted))
              && (t.record.value.startedAt.Some? ==>
                    t.record.value.startedAt.value == request.now || (s.record.Some? && t.record.value.startedAt == s.record.value.startedAt))
  {
  }

  /** Every change to the record carries the time of its request. */
  lemma ChangesAreDated(h: History, i: nat)
    requires i < |h.requests| && h.IsValid()
    ensures h.StateAt(i + 1).record.Some? && h.StateAt(i + 1).record != h.StateAt(i).record ==>
              h.StateAt(i + 1).record.value.updatedAt == h.requests[i].now
  {
    AlwaysCoherent(h, i);
    assert h.IsStepAt(i);
  }

  /** An alarm that finds the run neither held with a lease nor ended is cleared and does nothing else. */
  lemma StaleAlarmIsCleared(h: History, i: nat)
    requires i < |h.requests| && h.IsValid() && h.requests[i].Alarm?
    requires h.StateAt(i).record.None? || Has(h.StateAt(i), Queued) || Has(h.StateAt(i), Dispatched)
    ensures h.StateAt(i + 1) == h.StateAt(i).(alarm := None) && h.ReplyAt(i) == Accepted
  {
    assert h.IsStepAt(i);
  }

  /** A run started when a worker first took it on. */
  lemma {:induction false} StartedWhenTakenOn(h: History, i: nat) returns (k: nat)
    requires i <= |h.requests| && h.IsValid()
    requires h.StateAt(i).record.Some? && h.StateAt(i).record.value.startedAt.Some?
    ensures k < i && TakesOn(h, k) && h.requests[k].now == h.StateAt(i).record.value.startedAt.value
    ensures h.StateAt(k).record.Some? ==> h.StateAt(k).record.value.startedAt.None?
  {
    var m: nat := i - 1;
    AlwaysCoherent(h, m);
    assert h.IsStepAt(m);
    TimesStep(h.hasDb, h.StateAt(m), h.requests[m]);
    if h.StateAt(m).record.Some? && h.StateAt(m).record.value.startedAt.Some? {
      k := StartedWhenTakenOn(h, m);
    } else {
      k := m;
    }
  }

  /** A record was created by the request that found none. */
  lemma {:induction false} CreatedWhenMissing(h: History, i: nat) returns (c: nat)
    requires i <= |h.requests| && h.IsValid() && h.StateAt(i).record.Some?
    ensures c < i && h.StateAt(c).record.None? && h.requests[c].now == h.StateAt(i).record.value.createdAt
    ensures forall k :: c < k <= i ==> h.StateAt(k).record.Some?
  {
    var m: nat := i - 1;
    AlwaysCoherent(h, m);
    assert h.IsStepAt(m);
    TimesStep(h.hasDb, h.StateAt(m), h.requests[m]);
    if h.StateAt(m).record.Some? {
      c := CreatedWhenMissing(h, m);
    } else {
      c := m;
    }
  }

  // ---------------------------------------------------------------------------------------------
  // Metadata
  // ---------------------------------------------------------------------------------------------

  predicate SameMetadata(r: RunRecord, q: RunRecord) {
    r.runId == q.runId && r.teamId == q.teamId && r.issueRef == q.issueRef
  }

  lemma MetadataStep(hasDb: bool, s: Stored, request: Request)
    requires Coherent(hasDb, s) && request.IsWellFormed()
    ensures var (t, reply) := Handle(hasDb, s, request);
            t.record.Some? ==>
              && (s.record.Some? ==> SameMetadata(s.record.value, t.record.value))
              && (s.record.Some? && !(request.Dispatch? && reply == Accepted) ==>
                    t.record.value.workerKind == s.record.value.workerKind && t.record.value.configHash == s.record.value.configHash)
              && (s.record.None? ==>
                    t.record.value.runId == (if request.Dispatch? then request.runId else None)
                    && t.record.value.teamId == (if request.Dispatch? then request.teamId else None)
                    && t.record.value.issueRef == (if request.Dispatch? then request.issueRef else None))
  {
  }

  /** Whose run it is, is what the request said that created the record: nothing, unless it was a dispatch. */
  lemma {:induction false} MetadataFromCreation(h: History, i: nat) returns (c: nat)
    requires i <= |h.requests| && h.IsValid() && h.StateAt(i).record.Some?
    ensures c < i && h.StateAt(c).record.None? && forall k :: c < k <= i ==> h.StateAt(k).record.Some?
    ensures
      var r, record := h.requests[c], h.StateAt(i).record.value;
      && record.runId == (if r.Dispatch? then r.runId else None)
      && record.teamId == (if r.Dispatch? then r.teamId else None)
      && record.issueRef == (if r.Dispatch? then r.issueRef else None)
  {
    var m: nat := i - 1;
    AlwaysCoherent(h, m);
    assert h.IsStepAt(m);
    MetadataStep(h.hasDb, h.StateAt(m), h.requests[m]);
    if h.StateAt(m).record.Some? {
      c := MetadataFromCreation(h, m);
    } else {
      c := m;
    }
  }

  /** The kind of worker and the configuration of an active run are those of its dispatch, if it gave them. */
  lemma {:induction false} KindFromDispatch(h: History, d: nat, i: nat)
    requires d < i <= |h.requests| && h.IsValid() && h.Dispatches(d)
    requires forall k :: d < k < i ==> !h.Dispatches(k)
    requires forall k :: d < k <= i ==> IsActive(h.StateAt(k))
    ensures h.StateAt(i).record.Some?
    ensures h.requests[d].workerKind.Some? ==> h.StateAt(i).record.value.workerKind == h.requests[d].workerKind
    ensures h.requests[d].configHash.Some? ==> h.StateAt(i).record.value.configHash == h.requests[d].configHash
  {
    if i == d + 1 {
      DispatchAcceptedIff(h, d);
    } else {
      var m: nat := i - 1;
      KindFromDispatch(h, d, m);
      AlwaysCoherent(h, m);
      assert h.IsStepAt(m);
      MetadataStep(h.hasDb, h.StateAt(m), h.requests[m]);
    }
  }

  // ---------------------------------------------------------------------------------------------
  // Why the other requests are refused
  // ---------------------------------------------------------------------------------------------

  lemma AckIsRefusedFor(h: History, i: nat)
    requires i < |h.requests| && h.IsValid() && h.requests[i].Ack? && h.requests[i].accept.Some?
    requires h.ReplyAt(i) != Accepted
    ensures
      var s, r := h.StateAt(i), h.requests[i];
      h.ReplyAt(i) == Refused(
        if r.accept.value && s.record.Some? && r.worker.Some? && !IsFrom(r.worker, s.record.value.leaseHolder)
        then "lease_holder_mismatch" else "invalid_state_transition")
  {
    AlwaysCoherent(h, i);
  }

  lemma BatchIsRefusedFor(h: History, i: nat)
    requires i < |h.requests| && h.IsValid() && h.requests[i].Events? && h.ReplyAt(i) !in {Accepted, Aborted}
    ensures
      var s, r := h.StateAt(i), h.requests[i];
      h.ReplyAt(i) == Refused(
        if s.record.None? then "run_unknown"
        else if h.IsDone(i) then (if h.StateAt(i + 1).record.None? then "run_unknown" else "run_terminal")
        else if !Has(s, Running) then "run_not_running"
        else if s.record.value.teamId.None? || s.record.value.runId.None? then "run_metadata_missing"
        else if !IsNotFromOther(r.worker, s.record.value.leaseHolder) then "lease_holder_mismatch"
        else if r.batch.TooLarge? then "events_too_large" else "invalid_event")
  {
    AlwaysCoherent(h, i);
    assert h.IsStepAt(i);
  }

  lemma CompletionIsRefusedFor(h: History, i: nat)
    requires i < |h.requests| && h.IsValid() && h.requests[i].Complete? && h.ReplyAt(i) !in {Accepted, Aborted}
    ensures
      var s, r := h.StateAt(i), h.requests[i];
      h.ReplyAt(i) == Refused(
        if r.body.None? then "invalid_request"
        else if s.record.None? then "run_unknown"
        else if h.IsDone(i) then "run_terminal"
        else if !Has(s, Running) then "lease_revoked"
        else if !IsFrom(r.worker, s.record.value.leaseHolder) then "lease_holder_mismatch"
        else if s.record.value.leaseExpiresAt.Some? && s.record.value.leaseExpiresAt.value <= r.now then "lease_revoked"
        else "run_metadata_missing")
  {
    AlwaysCoherent(h, i);
  }

  lemma CancelIsRefusedFor(h: History, i: nat)
    requires i < |h.requests| && h.IsValid() && h.requests[i].Cancel? && h.ReplyAt(i) !in {Accepted, Aborted}
    ensures
      var s, r := h.StateAt(i), h.requests[i];
      h.ReplyAt(i) == Refused(
        if s.record.None? then "run_unknown"
        else if h.IsDone(i) then "run_terminal"
        else if !Has(s, Running) then "run_not_running"
        else if (r.configHash.None? && s.record.value.configHash.None?) || !r.artifactsValid then "invalid_request"
        else "run_metadata_missing")
  {
    AlwaysCoherent(h, i);
  }

  lemma RevokeIsRefusedFor(h: History, i: nat)
    requires i < |h.requests| && h.IsValid() && h.requests[i].Revoke? && h.ReplyAt(i) !in {Accepted, Aborted}
    ensures h.ReplyAt(i) == Refused(
      if h.StateAt(i).record.None? then "run_unknown" else if h.IsDone(i) then "run_terminal" else "run_not_active")
  {
  }
}
