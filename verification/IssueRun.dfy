/** The durable object itself: handlers that update the stored record, the event log, the alarm and
    the database row one after the other.  Every handler is proved against IssueRunModel.Handle. */
module IssueRuns {
  import opened Options
  import opened IssueRunModel

  class IssueRun {
    const hasDb: bool
    var record: Option<RunRecord>
    var eventLog: Option<seq<string>>
    var alarm: Option<int>
    var rows: map<string, RunRow>

    constructor (hasDb: bool)
      ensures this.hasDb == hasDb && View() == EMPTY
    {
      this.hasDb := hasDb;
      record, eventLog, alarm, rows := None, None, None, map[];
    }

    function View(): Stored
      reads this
    {
      Stored(record, eventLog, alarm, rows)
    }

    method EnsureRecord(now: int) returns (current: RunRecord)
      modifies this`record
      ensures View() == Ensured(old(View()), now) && record == Some(current)
    {
      if record.Some? {
        return record.value;
      }
      current := NewRecord(now, None, None, None);
      record := Some(current);
    }

    /** Moves the stored record to `next`, or refuses a move that the transition table lacks. */
    method TransitionRecord(next: RunStatus, now: int, lease: Lease) returns (allowed: bool)
      requires record.Some?
      modifies this
      ensures allowed == CanTransition(old(record).value.status, next)
      ensures View() == if allowed then Moved(old(View()), next, now, lease) else old(View())
    {
      var before := record.value;
      if !CanTransition(before.status, next) {
        return false;
      }
      var updated := before.(status := next, updatedAt := now, terminalRetentionExpiresAt := None);
      if next == Running && before.startedAt.None? {
        updated := updated.(startedAt := Some(now));
      }
      if IsTerminal(next) {
        if before.endedAt.None? {
          updated := updated.(endedAt := Some(now));
        }
        updated := updated.(terminalRetentionExpiresAt :=
          Or(before.terminalRetentionExpiresAt, Some(now + TERMINAL_RETENTION_MS)));
      }
      if lease.SetLease? {
        updated := updated.(leaseExpiresAt := Some(lease.expiresAt), leaseSec := Some(lease.sec));
      }
      if lease.ClearLease? {
        updated := updated.(leaseHolder := None, leaseExpiresAt := None, leaseSec := None);
      }
      record := Some(updated);

      if updated.status == Running && updated.leaseExpiresAt.Some? {
        alarm := updated.leaseExpiresAt;
      } else if IsTerminal(updated.status) && updated.terminalRetentionExpiresAt.Some? {
        eventLog := None;
        alarm := updated.terminalRetentionExpiresAt;
      } else if before.leaseExpiresAt.Some? || lease.ClearLease? {
        alarm := None;
      }
      allowed := true;
    }

    method AcquireDispatch(r: Request) returns (reply: Reply)
      requires r.Dispatch?
      modifies this
      ensures (View(), reply) == Handle(hasDb, old(View()), r)
    {
      var candidate := if record.Some? then record.value else NewRecord(r.now, r.runId, r.teamId, r.issueRef);
      if candidate.status != Queued || candidate.leaseHolder.Some? {
        return Refused("lease_already_held");
      }
      record := Some(candidate.(
        status := Dispatched,
        updatedAt := r.now,
        leaseHolder := Or(r.worker, candidate.leaseHolder),
        leaseSec := Or(r.leaseSec, candidate.leaseSec),
        workerKind := Or(r.workerKind, candidate.workerKind),
        configHash := Or(r.configHash, candidate.configHash)));
      reply := Accepted;
    }

    method HandleAcknowledgement(r: Request) returns (reply: Reply)
      requires r.Ack?
      modifies this
      ensures (View(), reply) == Handle(hasDb, old(View()), r)
    {
      if r.accept.None? {
        return Refused("invalid_request");
      }
      var current := EnsureRecord(r.now);
      if r.accept.value && current.leaseHolder.Some? && r.worker.Some? && r.worker != current.leaseHolder {
        return Refused("lease_holder_mismatch");
      }
      var sec := if current.leaseSec.Some? then current.leaseSec.value else DEFAULT_LEASE_SEC;
      var allowed;
      if r.accept.value {
        allowed := TransitionRecord(Running, r.now, SetLease(r.now + sec * 1000, sec));
      } else {
        allowed := TransitionRecord(Queued, r.now, ClearLease);
      }
      reply := if allowed then Accepted else Refused("invalid_state_transition");
    }

    method HandleHeartbeatRequest(r: Request) returns (reply: Reply)
      requires r.Heartbeat?
      modifies this
      ensures (View(), reply) == Handle(hasDb, old(View()), r)
    {
      if record.None? {
        return Refused("run_unknown");
      }
      var current := record.value;
      if IsTerminal(current.status) {
        return Refused("run_terminal");
      }
      if current.status != Running || current.leaseExpiresAt.None? || current.leaseSec.None? {
        return Refused("lease_revoked");
      }
      if current.leaseHolder.Some? && r.worker != current.leaseHolder {
        return Refused("lease_holder_mismatch");
      }
      if current.leaseExpiresAt.value <= r.now {
        return Refused("lease_revoked");
      }
      var expiresAt := r.now + current.leaseSec.value * 1000;
      record := Some(current.(updatedAt := r.now, leaseExpiresAt := Some(expiresAt)));
      alarm := Some(expiresAt);
      reply := Accepted;
    }

    method PruneTerminalRetention()
      modifies this
      ensures View() == Pruned(old(View()))
    {
      eventLog := None;
      record := None;
      alarm := None;
    }

    method HandleEventBatch(r: Request) returns (reply: Reply)
      requires r.Events?
      modifies this
      ensures (View(), reply) == Handle(hasDb, old(View()), r)
    {
      if record.None? {
        return Refused("run_unknown");
      }
      var current := record.value;
      if IsTerminal(current.status) {
        var retention := current.terminalRetentionExpiresAt;
        if retention.None? && current.endedAt.Some? {
          retention := Some(current.endedAt.value + TERMINAL_RETENTION_MS);
        }
        if retention.Some? && r.now >= retention.value {
          PruneTerminalRetention();
          return Refused("run_unknown");
        }
        var late := if current.lateEvents.Some? then current.lateEvents.value else 0;
        record := Some(current.(lateEvents := Some(late + 1), updatedAt := r.now));
        return Refused("run_terminal");
      }
      if current.status != Running {
        return Refused("run_not_running");
      }
      if current.teamId.None? || current.runId.None? {
        return Refused("run_metadata_missing");
      }
      if current.leaseHolder.Some? && r.worker.Some? && r.worker != current.leaseHolder {
        return Refused("lease_holder_mismatch");
      }
      if r.batch.TooLarge? {
        return Refused("events_too_large");
      }
      if r.batch.Malformed? {
        return Refused("invalid_event");
      }
      var existing := if eventLog.Some? then eventLog.value else [];
      eventLog := Some(existing + r.batch.events);
      reply := if r.forwarded then Accepted else Aborted;
    }

    /** Persists the row, announces the completion, then moves the record. */
    method Finish(body: Completion, now: int, persisted: bool, announced: bool) returns (reply: Reply)
      requires record.Some? && record.value.status == Running && IsTerminal(body.status)
      modifies this
      ensures (View(), reply) == Finished(hasDb, old(View()), body, now, persisted, announced)
    {
      var row := CompletionRow(record.value, body, now);
      if row.None? {
        return Refused("run_metadata_missing");
      }
      if hasDb {
        if !persisted {
          return Aborted;
        }
        rows := rows[record.value.runId.value := row.value];
      }
      if !announced {
        return Aborted;
      }
      var allowed := TransitionRecord(body.status, now, ClearLease);
      reply := Accepted;
    }

    method HandleCompletion(r: Request) returns (reply: Reply)
      requires r.Complete? && r.IsWellFormed()
      modifies this
      ensures (View(), reply) == Handle(hasDb, old(View()), r)
    {
      if r.body.None? {
        return Refused("invalid_request");
      }
      if record.None? {
        return Refused("run_unknown");
      }
      var current := record.value;
      if IsTerminal(current.status) {
        return Refused("run_terminal");
      }
      if current.status != Running || current.leaseExpiresAt.None? {
        return Refused("lease_revoked");
      }
      if current.leaseHolder.Some? && r.worker != current.leaseHolder {
        return Refused("lease_holder_mismatch");
      }
      if current.leaseExpiresAt.value <= r.now {
        return Refused("lease_revoked");
      }
      reply := Finish(r.body.value, r.now, r.persisted, r.announced);
    }

    method HandleCancellation(r: Request) returns (reply: Reply)
      requires r.Cancel?
      modifies this
      ensures (View(), reply) == Handle(hasDb, old(View()), r)
    {
      if record.None? {
        return Refused("run_unknown");
      }
      var current := record.value;
      if IsTerminal(current.status) {
        return Refused("run_terminal");
      }
      if current.status != Running {
        return Refused("run_not_running");
      }
      var hash := Or(r.configHash, current.configHash);
      if hash.None? || !r.artifactsValid {
        return Refused("invalid_request");
      }
      var body := Completion(Cancelled, r.summary, hash.value, None);
      if CompletionRow(current, body, r.now).Some? && !r.revoked {
        return Aborted;
      }
      reply := Finish(body, r.now, r.persisted, r.announced);
    }

    method HandleManualRevoke(r: Request) returns (reply: Reply)
      requires r.Revoke?
      modifies this
      ensures (View(), reply) == Handle(hasDb, old(View()), r)
    {
      if record.None? {
        return Refused("run_unknown");
      }
      var current := record.value;
      if IsTerminal(current.status) {
        return Refused("run_terminal");
      }
      if current.status != Running && current.status != Dispatched {
        return Refused("run_not_active");
      }
      if !r.revoked {
        return Aborted;
      }
      var allowed := TransitionRecord(Queued, r.now, ClearLease);
      reply := Accepted;
    }

    method OnAlarm(r: Request) returns (reply: Reply)
      requires r.Alarm?
      modifies this
      ensures (View(), reply) == Handle(hasDb, old(View()), r)
    {
      if record.None? {
        alarm := None;
        return Accepted;
      }
      var current := record.value;
      if IsTerminal(current.status) {
        if current.terminalRetentionExpiresAt.Some? && current.terminalRetentionExpiresAt.value > r.now {
          alarm := current.terminalRetentionExpiresAt;
        } else {
          PruneTerminalRetention();
        }
        return Accepted;
      }
      if current.status != Running || current.leaseExpiresAt.None? {
        alarm := None;
        return Accepted;
      }
      if current.leaseExpiresAt.value > r.now {
        alarm := current.leaseExpiresAt;
        return Accepted;
      }
      if !r.revoked {
        return Aborted;
      }
      var allowed := TransitionRecord(Queued, r.now, ClearLease);
      alarm := None;
      reply := Accepted;
    }
  }
}
