/** The local orchestrator's state and the steps its mutex-protected sections take
    (internal/orchestrator/orchestrator.go, internal/orchestrator/orchestrator_runtime.go).

    Tracker, workspace and agent calls are answered by an environment.  One event loop makes all
    steps except stopping a run, which another goroutine may interleave anywhere; the environment
    therefore also says which runs are stopped after each dispatched issue.
 */
module OrchestratorModel {
  import opened Text
  import Backoff

  type IssueId = string

  datatype IssueState = Unclaimed | Claimed | IssueRunning | RetryQueued | Released

  datatype Issue = Issue(id: IssueId, identifier: string, state: IssueState, blockedBy: seq<string>)

  datatype RunPhase =
    | PreparingWorkspace | BuildingPrompt | LaunchingAgentProcess | InitializingSession | StreamingTurn | Finishing
    | Succeeded | Failed | TimedOut | Stalled | CanceledByReconciliation

  /** A managed run.  `serial` numbers the runs in the order they were started, and stands for the
      identity of the entry. */
  datatype RunEntry = RunEntry(
    serial: nat, issue: Issue, attempt: int, phase: RunPhase, tokensIn: int, tokensOut: int, lastEvent: string, error: string)

  datatype BackoffEntry = BackoffEntry(issue: IssueId, attempt: int, retryAt: int)

  datatype Config = Config(maxConcurrency: int, maxRetryBackoffMs: int, seed: Backoff.Seed)

  /** The issues the orchestrator manages. */
  datatype Work = Work(running: map<IssueId, RunEntry>, backoff: seq<BackoffEntry>, paused: set<IssueId>)

  /** The issues it has seen, and the order in which they are evicted. */
  datatype IssueCache = IssueCache(issues: map<IssueId, Issue>, order: seq<IssueId>)

  datatype State = State(
    work: Work,
    cache: IssueCache,
    statsRunning: int,
    totalTokensIn: int,
    totalTokensOut: int,
    started: nat)

  const INITIAL := State(Work(map[], [], {}), IssueCache(map[], []), 0, 0, 0, 0)

  const MAX_ISSUE_CACHE_SIZE := 1000

  /** How far the calls of one dispatch get. */
  datatype LaunchResult = ClaimFails | WorkspaceFails | PromptFails | StartFails | Starts

  datatype Turn = Turn(now: int, launch: LaunchResult, alreadyImplemented: bool, stops: set<IssueId>)

  // ---- run phases -------------------------------------------------------------------------

  predicate IsActive(phase: RunPhase) {
    phase in {PreparingWorkspace, BuildingPrompt, LaunchingAgentProcess, InitializingSession, StreamingTurn, Finishing}
  }

  predicate IsFailure(phase: RunPhase) {
    phase in {Failed, TimedOut, Stalled, CanceledByReconciliation}
  }

  predicate CanEnter(current: RunPhase, target: RunPhase) {
    || (IsActive(current) && IsFailure(target))
    || (current, target) in {
         (PreparingWorkspace, BuildingPrompt), (BuildingPrompt, LaunchingAgentProcess),
         (LaunchingAgentProcess, InitializingSession), (InitializingSession, StreamingTurn),
         (StreamingTurn, Finishing), (Finishing, Succeeded)}
  }

  datatype DoneError = NoError | ContextCanceled | OtherError

  /** Lower case, as far as words in ASCII can tell: two characters outside ASCII have a lower case in it,
      the Kelvin sign and the dotted capital I. */
  function Lower(c: char): char {
    if 'A' <= c <= 'Z' then (c as int + 32) as char
    else if c == '\U{212A}' then 'k'
    else if c == '\U{0130}' then 'i'
    else c
  }

  function ToLower(s: string): string {
    seq(|s|, i requires 0 <= i < |s| => Lower(s[i]))
  }

  function Normalized(s: string): string {
    Trim(IsGoSpace, ToLower(s))
  }

  predicate Contains(s: string, word: string) {
    word <= s || (s != "" && Contains(s[1..], word))
  }

  predicate HasExplicitSuccessSignal(message: string) {
    var normalized := Normalized(message);
    && normalized != ""
    && (normalized in {"turn/completed", "item/completed", "task/completed", "session.status"}
        || (Contains(normalized, "completed") && Contains(normalized, "success")))
  }

  function CompletionSignal(eventType: string): string {
    var normalized := Normalized(eventType);
    if HasExplicitSuccessSignal(normalized) then normalized else ""
  }

  /** The message a finished run is judged by: its error, or else the signal of its last event. */
  function PhaseMessage(entry: RunEntry): string {
    if entry.error == "" then CompletionSignal(entry.lastEvent) else entry.error
  }

  predicate IsFailureEvent(eventType: string) {
    eventType in {"turn/failed", "turn/cancelled", "turn/canceled"}
  }

  /** The phase a finished run is filed under. */
  function FinalPhase(phase: RunPhase, message: string, done: DoneError): RunPhase {
    if done == ContextCanceled then (if IsActive(phase) then CanceledByReconciliation else phase)
    else if done == OtherError then (if IsActive(phase) then Failed else phase)
    else if IsFailure(phase) then phase
    else
      var settled :=
        if !IsActive(phase) then phase
        else if phase == InitializingSession then Succeeded
        else if CanEnter(phase, Finishing) then Finishing
        else phase;
      if settled == Finishing && HasExplicitSuccessSignal(message) then Succeeded else settled
  }

  /** What the branch check says of a run that reported success. */
  datatype Verdict = Advanced | BranchUnchanged | GitError | NoClaimHead

  predicate IsVerified(verdict: Verdict) {
    verdict == Advanced || verdict == NoClaimHead
  }

  // ---- the pieces of a state --------------------------------------------------------------

  predicate CanDispatch(cfg: Config, w: Work) {
    |w.running| < cfg.maxConcurrency
  }

  /** The first entry of the issue is replaced; a new issue goes to the end. */
  function Upserted(entries: seq<BackoffEntry>, next: BackoffEntry): seq<BackoffEntry> {
    if entries == [] then [next]
    else if entries[0].issue == next.issue then [next] + entries[1..]
    else [entries[0]] + Upserted(entries[1..], next)
  }

  predicate IsQueued(entries: seq<BackoffEntry>, id: IssueId) {
    exists k :: 0 <= k < |entries| && entries[k].issue == id
  }

  predicate IsManaged(w: Work, id: IssueId) {
    id in w.running || id in w.paused || IsQueued(w.backoff, id)
  }

  function Cached(c: IssueCache, issue: Issue): IssueCache {
    if issue.id in c.issues then c.(issues := c.issues[issue.id := issue])
    else if |c.issues| >= MAX_ISSUE_CACHE_SIZE && c.order != [] then
      IssueCache((c.issues - {c.order[0]})[issue.id := issue], c.order[1..] + [issue.id])
    else IssueCache(c.issues[issue.id := issue], c.order + [issue.id])
  }

  function Enqueued(w: Work, entry: BackoffEntry): Work {
    w.(backoff := Upserted(w.backoff, entry))
  }

  function Removed(w: Work, ids: set<IssueId>): Work {
    w.(running := w.running - ids)
  }

  function Requeued(w: Work, entry: BackoffEntry): Work {
    w.(backoff := w.backoff + [entry])
  }

  function Launched(w: Work, serial: nat, issue: Issue, attempt: int): Work {
    w.(running := w.running[issue.id := RunEntry(serial, issue, attempt, InitializingSession, 0, 0, "", "")])
  }

  /** Retry after the continuation delay, with the same attempt number. */
  function ContinuationEntry(cfg: Config, id: IssueId, attempt: int, now: int): BackoffEntry {
    BackoffEntry(id, attempt, now + Backoff.CalculateBackoff(cfg.seed, id, 0, cfg.maxRetryBackoffMs))
  }

  /** Retry after the failure delay, with the next attempt number. */
  function RetryEntry(cfg: Config, id: IssueId, attempt: int, now: int): BackoffEntry {
    BackoffEntry(id, attempt + 1, now + Backoff.CalculateBackoff(cfg.seed, id, attempt, cfg.maxRetryBackoffMs))
  }

  function Stopped(s: State, ids: set<IssueId>): State {
    s.(work := Removed(s.work, ids), statsRunning := |Removed(s.work, ids).running|)
  }

  function Continue(cfg: Config, s: State, id: IssueId, attempt: int, now: int): State {
    s.(work := Enqueued(s.work, ContinuationEntry(cfg, id, attempt, now)))
  }

  function Retry(cfg: Config, s: State, issue: Issue, attempt: int, now: int): State {
    s.(work := Enqueued(s.work, RetryEntry(cfg, issue.id, attempt, now)), cache := Cached(s.cache, issue))
  }

  function Launch(s: State, issue: Issue, attempt: int): State {
    var w := Launched(s.work, s.started, issue, attempt);
    s.(work := w, cache := Cached(s.cache, issue), statsRunning := |w.running|, started := s.started + 1)
  }

  // ---- the steps --------------------------------------------------------------------------

  function DispatchIssue(cfg: Config, s: State, issue: Issue, attempt: int, turn: Turn): State {
    if issue.id == "" then s
    else if turn.launch == ClaimFails || (issue.state != Unclaimed && issue.state != RetryQueued) then
      Continue(cfg, s, issue.id, attempt, turn.now)
    else
      match turn.launch
      case StartFails => Retry(cfg, s, issue, attempt, turn.now)
      case Starts => Launch(s, issue, attempt)
      case _ => Continue(cfg, s, issue.id, attempt, turn.now)
  }

  /** One entry taken off the backoff queue: requeued at the concurrency limit, put back when the
      issue is unknown, otherwise dispatched. */
  function Handled(cfg: Config, s: State, entry: BackoffEntry, issues: map<IssueId, Issue>, turn: Turn): State {
    if !CanDispatch(cfg, s.work) then s.(work := Requeued(s.work, entry))
    else if entry.issue in issues then
      DispatchIssue(cfg, s, issues[entry.issue].(state := RetryQueued), entry.attempt, turn)
    else if entry.issue in s.cache.issues then
      DispatchIssue(cfg, s, s.cache.issues[entry.issue].(state := RetryQueued), entry.attempt, turn)
    else Continue(cfg, s, entry.issue, entry.attempt, turn.now)
  }

  /** Then the interleaved stops take effect. */
  function HandleReady(cfg: Config, s: State, entry: BackoffEntry, issues: map<IssueId, Issue>, turn: Turn): State {
    Stopped(Handled(cfg, s, entry, issues, turn), turn.stops)
  }

  function HandleAllReady(
    cfg: Config, s: State, ready: seq<BackoffEntry>, issues: map<IssueId, Issue>, turns: nat -> Turn): State
  {
    if ready == [] then s
    else
      var last := |ready| - 1;
      HandleReady(cfg, HandleAllReady(cfg, s, ready[..last], issues, turns), ready[last], issues, turns(last))
  }

  function Due(entries: seq<BackoffEntry>, now: int): seq<BackoffEntry> {
    if entries == [] then []
    else
      var last := |entries| - 1;
      if entries[last].retryAt > now then Due(entries[..last], now) else Due(entries[..last], now) + [entries[last]]
  }

  function NotDue(entries: seq<BackoffEntry>, now: int): seq<BackoffEntry> {
    if entries == [] then []
    else
      var last := |entries| - 1;
      if entries[last].retryAt > now then NotDue(entries[..last], now) + [entries[last]] else NotDue(entries[..last], now)
  }

  function RetryPass(cfg: Config, s: State, issues: map<IssueId, Issue>, now: int, turns: nat -> Turn): State {
    if !CanDispatch(cfg, s.work) then s
    else HandleAllReady(cfg, s.(work := s.work.(backoff := NotDue(s.work.backoff, now))), Due(s.work.backoff, now), issues, turns)
  }

  predicate HasOpenBlocker(issue: Issue, open: set<string>) {
    exists k :: 0 <= k < |issue.blockedBy| && issue.blockedBy[k] in open
  }

  predicate IsSkipped(issue: Issue, open: set<string>, turn: Turn) {
    issue.state != Unclaimed || HasOpenBlocker(issue, open) || turn.alreadyImplemented
  }

  /** The pass over the tracker's issues; it stops at the first issue it may not dispatch for lack of
      a free slot. */
  function NewIssuesPass(cfg: Config, s: State, issues: seq<Issue>, open: set<string>, turns: nat -> Turn, k: nat): State
    requires k <= |issues|
    decreases |issues| - k
  {
    if k == |issues| then s
    else if IsSkipped(issues[k], open, turns(k)) then NewIssuesPass(cfg, s, issues, open, turns, k + 1)
    else if !CanDispatch(cfg, s.work) then s
    else if IsManaged(s.work, issues[k].id) then NewIssuesPass(cfg, s, issues, open, turns, k + 1)
    else
      var dispatched := Stopped(DispatchIssue(cfg, s, issues[k], 1, turns(k)), turns(k).stops);
      NewIssuesPass(cfg, dispatched, issues, open, turns, k + 1)
  }

  function AgentEvent(s: State, id: IssueId, kind: string, tokensIn: int, tokensOut: int, error: string): State {
    if id !in s.work.running then s
    else
      var entry := s.work.running[id];
      var streaming := if entry.phase == InitializingSession then StreamingTurn else entry.phase;
      var fails := IsFailureEvent(kind) && IsActive(streaming);
      var newIn := Backoff.Max(entry.tokensIn, tokensIn);
      var newOut := Backoff.Max(entry.tokensOut, tokensOut);
      var next := entry.(
        phase := if fails then Failed else streaming, tokensIn := newIn, tokensOut := newOut, lastEvent := kind,
        error := if fails && error != "" then error else entry.error);
      s.(work := s.work.(running := s.work.running[id := next]),
         totalTokensIn := s.totalTokensIn + newIn - entry.tokensIn,
         totalTokensOut := s.totalTokensOut + newOut - entry.tokensOut)
  }

  /** A run ended.  An unverified success is paused for review, a verified one released, anything
      else retried. */
  function CompleteRun(
    cfg: Config, s: State, id: IssueId, done: DoneError, verdict: Verdict, now: int): State
  {
    if id !in s.work.running then s
    else
      var entry := s.work.running[id];
      var t := Stopped(s, {id});
      if FinalPhase(entry.phase, PhaseMessage(entry), done) != Succeeded then Retry(cfg, t, entry.issue, entry.attempt, now)
      else if IsVerified(verdict) then t
      else Paused(t, id, entry.issue.(state := IssueRunning))
  }

  function Paused(s: State, id: IssueId, issue: Issue): State {
    s.(work := s.work.(paused := s.work.paused + {id}), cache := Cached(s.cache, issue))
  }

  /** The last section of stopping a run: the entry goes only if it is still the one being stopped. */
  function StopRun(s: State, id: IssueId, serial: nat): State {
    if id in s.work.running && s.work.running[id].serial == serial then Stopped(s, {id}) else s
  }

  /** Timed-out or stalled runs are marked. */
  function Marked(w: Work, ids: set<IssueId>, phase: RunPhase): Work {
    w.(running := map id | id in w.running ::
         if id in ids && IsActive(w.running[id].phase)
         then w.running[id].(phase := phase, error := if phase == TimedOut then "run timed out" else "run stalled")
         else w.running[id])
  }

  /** The reconciling section: entries without a process are dropped, overdue ones marked. */
  function Reconciled(s: State, ids: set<IssueId>, phase: RunPhase, dropped: set<IssueId>): State {
    Stopped(s, dropped).(work := Marked(Removed(s.work, dropped), ids, phase))
  }

  function CacheAll(c: IssueCache, issues: seq<Issue>): IssueCache {
    if issues == [] then c else Cached(CacheAll(c, issues[..|issues| - 1]), issues[|issues| - 1])
  }

  datatype Step =
    | Poll(issues: seq<Issue>)
    | RunRetryPass(byId: map<IssueId, Issue>, now: int, turns: nat -> Turn)
    | RunNewIssuesPass(issues: seq<Issue>, open: set<string>, turns: nat -> Turn)
    | Event(id: IssueId, kind: string, tokensIn: int, tokensOut: int, error: string)
    | Complete(id: IssueId, done: DoneError, verdict: Verdict, now: int)
    | Stop(id: IssueId, serial: nat)
    | Reconcile(ids: set<IssueId>, phase: RunPhase, dropped: set<IssueId>)
    | Shutdown

  function Next(cfg: Config, s: State, step: Step): State {
    match step
    case Poll(issues) => s.(cache := CacheAll(s.cache, issues))
    case RunRetryPass(byId, now, turns) => RetryPass(cfg, s, byId, now, turns)
    case RunNewIssuesPass(issues, open, turns) => NewIssuesPass(cfg, s, issues, open, turns, 0)
    case Event(id, kind, tokensIn, tokensOut, error) => AgentEvent(s, id, kind, tokensIn, tokensOut, error)
    case Complete(id, done, verdict, now) => CompleteRun(cfg, s, id, done, verdict, now)
    case Stop(id, serial) => StopRun(s, id, serial)
    case Reconcile(ids, phase, dropped) => Reconciled(s, ids, phase, dropped)
    case Shutdown => Stopped(s, s.work.running.Keys)
  }
}
