/** One issue run of the cloud control plane (cloud/src/do/issue-run.ts): a stored record, an event
    log and one platform alarm, driven by worker requests and by the alarm itself.

    Each handler is one atomic step.  A request carries the outcome of every outbound call its
    handler would make; a call that throws aborts the handler at that point, and what was stored
    before it stays stored.
 */
module IssueRunModel {
  import opened Options

  datatype RunStatus = Queued | Dispatched | Running | Succeeded | Failed | Cancelled

  predicate IsTerminal(status: RunStatus) {
    status in {Succeeded, Failed, Cancelled}
  }

  function AllowedTransitions(from: RunStatus): seq<RunStatus> {
    match from
    case Queued => [Dispatched]
    case Dispatched => [Running, Queued]
    case Running => [Succeeded, Failed, Cancelled, Queued]
    case _ => []
  }

  predicate CanTransition(from: RunStatus, to: RunStatus) {
    to in AllowedTransitions(from)
  }

  datatype RunRecord = RunRecord(
    runId: Option<string>,
    teamId: Option<string>,
    issueRef: Option<string>,
    status: RunStatus,
    createdAt: int,
    updatedAt: int,
    startedAt: Option<int>,
    endedAt: Option<int>,
    leaseHolder: Option<string>,
    leaseExpiresAt: Option<int>,
    leaseSec: Option<int>,
    workerKind: Option<string>,
    configHash: Option<string>,
    terminalRetentionExpiresAt: Option<int>,
    lateEvents: Option<int>)

  /** The row that a completion writes into the control-plane database. */
  datatype RunRow = RunRow(
    teamId: string, issueRef: string, workerId: string, kind: string, startedAt: int, endedAt: int,
    status: RunStatus, summary: string, finalConfigHash: string, errorClass: Option<string>)

  datatype Stored = Stored(
    record: Option<RunRecord>,
    eventLog: Option<seq<string>>,
    alarm: Option<int>,
    rows: map<string, RunRow>)

  const EMPTY := Stored(None, None, None, map[])

  datatype Completion = Completion(
    status: RunStatus, summary: string, finalConfigHash: string, errorClass: Option<string>)

  datatype EventBatch = TooLarge | Malformed | Lines(events: seq<string>)

  /** A validated request body, or the alarm.  `leaseSec` is a positive integer when present and a
      completion names a terminal status, as the validators of the source demand. */
  datatype Request =
    | GetState(now: int)
    | Dispatch(now: int, runId: Option<string>, teamId: Option<string>, issueRef: Option<string>,
               worker: Option<string>, leaseSec: Option<int>, workerKind: Option<string>, configHash: Option<string>)
    | Ack(now: int, accept: Option<bool>, worker: Option<string>)
    | Heartbeat(now: int, worker: Option<string>)
    | Events(now: int, worker: Option<string>, batch: EventBatch, forwarded: bool)
    | Complete(now: int, worker: Option<string>, body: Option<Completion>, persisted: bool, announced: bool)
    | Cancel(now: int, configHash: Option<string>, artifactsValid: bool, summary: string,
             revoked: bool, persisted: bool, announced: bool)
    | Revoke(now: int, revoked: bool)
    | Alarm(now: int, revoked: bool)
  {
    predicate IsWellFormed() {
      && (Dispatch? && leaseSec.Some? ==> leaseSec.value > 0)
      && (Complete? && body.Some? ==> IsTerminal(body.value.status))
    }
  }

  /** `Accepted` is a 2xx reply (or a finished alarm), `Aborted` an uncaught error. */
  datatype Reply = Accepted | Refused(error: string) | Aborted

  const DEFAULT_LEASE_SEC := 60
  const TERMINAL_RETENTION_MS := 24 * 60 * 60 * 1000

  /** The `??` operator. */
  function Or<T>(first: Option<T>, second: Option<T>): Option<T> {
    if first.Some? then first else second
  }

  function NewRecord(now: int, runId: Option<string>, teamId: Option<string>, issueRef: Option<string>): RunRecord {
    RunRecord(runId, teamId, issueRef, Queued, now, now, None, None, None, None, None, None, None, None, None)
  }

  datatype Lease = KeepLease | SetLease(expiresAt: int, sec: int) | ClearLease

  function MovedRecord(record: RunRecord, next: RunStatus, now: int, lease: Lease): RunRecord {
    var moved := record.(
      status := next,
      updatedAt := now,
      startedAt := if next == Running && record.startedAt.None? then Some(now) else record.startedAt,
      endedAt := if IsTerminal(next) && record.endedAt.None? then Some(now) else record.endedAt,
      terminalRetentionExpiresAt :=
        if IsTerminal(next) then Or(record.terminalRetentionExpiresAt, Some(now + TERMINAL_RETENTION_MS)) else None);
    match lease
    case KeepLease => moved
    case SetLease(expiresAt, sec) => moved.(leaseExpiresAt := Some(expiresAt), leaseSec := Some(sec))
    case ClearLease => moved.(leaseHolder := None, leaseExpiresAt := None, leaseSec := None)
  }

  /** The storage after the record moves to `next`. */
  function Moved(s: Stored, next: RunStatus, now: int, lease: Lease): Stored
    requires s.record.Some?
  {
    var record := s.record.value;
    var updated := MovedRecord(record, next, now, lease);
    if updated.status == Running && updated.leaseExpiresAt.Some? then
      s.(record := Some(updated), alarm := updated.leaseExpiresAt)
    else if IsTerminal(updated.status) && updated.terminalRetentionExpiresAt.Some? then
      s.(record := Some(updated), alarm := updated.terminalRetentionExpiresAt, eventLog := None)
    else if record.leaseExpiresAt.Some? || lease.ClearLease? then
      s.(record := Some(updated), alarm := None)
    else
      s.(record := Some(updated))
  }

  function Pruned(s: Stored): Stored {
    s.(record := None, eventLog := None, alarm := None)
  }

  function Ensured(s: Stored, now: int): Stored {
    if s.record.Some? then s else s.(record := Some(NewRecord(now, None, None, None)))
  }

  /** The database row for a completion, or `None` when the record lacks metadata. */
  function CompletionRow(record: RunRecord, body: Completion, endedAt: int): Option<RunRow> {
    if record.runId.None? || record.teamId.None? || record.issueRef.None?
       || record.leaseHolder.None? || record.workerKind.None? then None
    else Some(RunRow(
      record.teamId.value, record.issueRef.value, record.leaseHolder.value, record.workerKind.value,
      if record.startedAt.Some? then record.startedAt.value else record.createdAt, endedAt,
      body.status, body.summary, body.finalConfigHash, if body.status == Failed then body.errorClass else None))
  }

  /** Writes the row, announces the completion and moves the record to its terminal status.  Either
      outbound call may throw; a row that was written stays written. */
  function Finished(hasDb: bool, s: Stored, body: Completion, now: int, persisted: bool, announced: bool): (Stored, Reply)
    requires s.record.Some?
  {
    var row := CompletionRow(s.record.value, body, now);
    if row.None? then (s, Refused("run_metadata_missing"))
    else if hasDb && !persisted then (s, Aborted)
    else
      var saved := if hasDb then s.(rows := s.rows[s.record.value.runId.value := row.value]) else s;
      if !announced then (saved, Aborted)
      else (Moved(saved, body.status, now, ClearLease), Accepted)
  }

  function Handle(hasDb: bool, s: Stored, request: Request): (Stored, Reply) {
    match request
    case GetState(now) => (Ensured(s, now), Accepted)
    case Dispatch(_, _, _, _, _, _, _, _) => HandleDispatch(s, request)
    case Ack(_, _, _) => HandleAck(s, request)
    case Heartbeat(_, _) => HandleHeartbeat(s, request)
    case Events(_, _, _, _) => HandleEvents(s, request)
    case Complete(_, _, _, _, _) => HandleComplete(hasDb, s, request)
    case Cancel(_, _, _, _, _, _, _) => HandleCancel(hasDb, s, request)
    case Revoke(_, _) => HandleRevoke(s, request)
    case Alarm(_, _) => HandleAlarm(s, request)
  }

  function HandleDispatch(s: Stored, r: Request): (Stored, Reply)
    requires r.Dispatch?
  {
    var record := if s.record.Some? then s.record.value else NewRecord(r.now, r.runId, r.teamId, r.issueRef);
    if record.status != Queued || record.leaseHolder.Some? then (s, Refused("lease_already_held"))
    else
      var updated := record.(
        status := Dispatched,
        updatedAt := r.now,
        leaseHolder := Or(r.worker, record.leaseHolder),
        leaseSec := Or(r.leaseSec, record.leaseSec),
        workerKind := Or(r.workerKind, record.workerKind),
        configHash := Or(r.configHash, record.configHash));
      (s.(record := Some(updated)), Accepted)
  }

  function HandleAck(s: Stored, r: Request): (Stored, Reply)
    requires r.Ack?
  {
    if r.accept.None? then (s, Refused("invalid_request"))
    else
      var t := Ensured(s, r.now);
      var record := t.record.value;
      if r.accept.value && record.leaseHolder.Some? && r.worker.Some? && r.worker != record.leaseHolder then
        (t, Refused("lease_holder_mismatch"))
      else if !CanTransition(record.status, if r.accept.value then Running else Queued) then
        (t, Refused("invalid_state_transition"))
      else if r.accept.value then
        var sec := if record.leaseSec.Some? then record.leaseSec.value else DEFAULT_LEASE_SEC;
        (Moved(t, Running, r.now, SetLease(r.now + sec * 1000, sec)), Accepted)
      else
        (Moved(t, Queued, r.now, ClearLease), Accepted)
  }

  function HandleHeartbeat(s: Stored, r: Request): (Stored, Reply)
    requires r.Heartbeat?
  {
    if s.record.None? then (s, Refused("run_unknown"))
    else
      var record := s.record.value;
      if IsTerminal(record.status) then (s, Refused("run_terminal"))
      else if record.status != Running || record.leaseExpiresAt.None? || record.leaseSec.None? then (s, Refused("lease_revoked"))
      else if record.leaseHolder.Some? && r.worker != record.leaseHolder then (s, Refused("lease_holder_mismatch"))
      else if record.leaseExpiresAt.value <= r.now then (s, Refused("lease_revoked"))
      else
        var expiresAt := Some(r.now + record.leaseSec.value * 1000);
        (s.(record := Some(record.(updatedAt := r.now, leaseExpiresAt := expiresAt)), alarm := expiresAt), Accepted)
  }

  function HandleEvents(s: Stored, r: Request): (Stored, Reply)
    requires r.Events?
  {
    if s.record.None? then (s, Refused("run_unknown"))
    else
      var record := s.record.value;
      if IsTerminal(record.status) then
        var retention :=
          if record.terminalRetentionExpiresAt.Some? then record.terminalRetentionExpiresAt
          else if record.endedAt.Some? then Some(record.endedAt.value + TERMINAL_RETENTION_MS) else None;
        if retention.Some? && r.now >= retention.value then (Pruned(s), Refused("run_unknown"))
        else
          var late := (if record.lateEvents.Some? then record.lateEvents.value else 0) + 1;
          (s.(record := Some(record.(lateEvents := Some(late), updatedAt := r.now))), Refused("run_terminal"))
      else if record.status != Running then (s, Refused("run_not_running"))
      else if record.teamId.None? || record.runId.None? then (s, Refused("run_metadata_missing"))
      else if record.leaseHolder.Some? && r.worker.Some? && r.worker != record.leaseHolder then
        (s, Refused("lease_holder_mismatch"))
      else
        match r.batch
        case TooLarge => (s, Refused("events_too_large"))
        case Malformed => (s, Refused("invalid_event"))
        case Lines(events) =>
          var existing := if s.eventLog.Some? then s.eventLog.value else [];
          (s.(eventLog := Some(existing + events)), if r.forwarded then Accepted else Aborted)
  }

  function HandleComplete(hasDb: bool, s: Stored, r: Request): (Stored, Reply)
    requires r.Complete?
  {
    if r.body.None? then (s, Refused("invalid_request"))
    else if s.record.None? then (s, Refused("run_unknown"))
    else
      var record := s.record.value;
      if IsTerminal(record.status) then (s, Refused("run_terminal"))
      else if record.status != Running || record.leaseExpiresAt.None? then (s, Refused("lease_revoked"))
      else if record.leaseHolder.Some? && r.worker != record.leaseHolder then (s, Refused("lease_holder_mismatch"))
      else if record.leaseExpiresAt.value <= r.now then (s, Refused("lease_revoked"))
      else Finished(hasDb, s, r.body.value, r.now, r.persisted, r.announced)
  }

  function HandleCancel(hasDb: bool, s: Stored, r: Request): (Stored, Reply)
    requires r.Cancel?
  {
    if s.record.None? then (s, Refused("run_unknown"))
    else
      var record := s.record.value;
      var hash := Or(r.configHash, record.configHash);
      if IsTerminal(record.status) then (s, Refused("run_terminal"))
      else if record.status != Running then (s, Refused("run_not_running"))
      else if hash.None? || !r.artifactsValid then (s, Refused("invalid_request"))
      else
        var body := Completion(Cancelled, r.summary, hash.value, None);
        if CompletionRow(record, body, r.now).Some? && !r.revoked then (s, Aborted)
        else Finished(hasDb, s, body, r.now, r.persisted, r.announced)
  }

  function HandleRevoke(s: Stored, r: Request): (Stored, Reply)
    requires r.Revoke?
  {
    if s.record.None? then (s, Refused("run_unknown"))
    else
      var record := s.record.value;
      if IsTerminal(record.status) then (s, Refused("run_terminal"))
      else if record.status != Running && record.status != Dispatched then (s, Refused("run_not_active"))
      else if !r.revoked then (s, Aborted)
      else (Moved(s, Queued, r.now, ClearLease), Accepted)
  }

  /** The platform may deliver an alarm early and delivers an aborted one again. */
  function HandleAlarm(s: Stored, r: Request): (Stored, Reply)
    requires r.Alarm?
  {
    if s.record.None? then (s.(alarm := None), Accepted)
    else
      var record := s.record.value;
      if IsTerminal(record.status) then
        if record.terminalRetentionExpiresAt.Some? && record.terminalRetentionExpiresAt.value > r.now then
          (s.(alarm := record.terminalRetentionExpiresAt), Accepted)
        else (Pruned(s), Accepted)
      else if record.status != Running || record.leaseExpiresAt.None? then (s.(alarm := None), Accepted)
      else if record.leaseExpiresAt.value > r.now then (s.(alarm := record.leaseExpiresAt), Accepted)
      else if !r.revoked then (s, Aborted)
      else (Moved(s, Queued, r.now, ClearLease).(alarm := None), Accepted)
  }
}
