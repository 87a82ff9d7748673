/** What the steps of the orchestrator do to the issue they are about: delays, pauses, skips, evictions
    (internal/orchestrator/orchestrator.go:268-386, 542-683, 857-869;
    internal/orchestrator/orchestrator_runtime.go:27-208, 284-360, 405-447, 514-559). */
module OrchestratorCalls {
  import opened OrchestratorModel
  import opened OrchestratorRuns
  import opened Text
  import Backoff

  // ---- retry delays -----------------------------------------------------------------------

  /** An entry for a retry after a failed attempt: the next attempt, due after ten seconds doubled for each
      attempt before and capped, give or take a tenth, and never sooner than a second or the cap. */
  predicate IsRetry(cfg: Config, q: BackoffEntry, id: IssueId, attempt: int, now: int) {
    && q.issue == id && q.attempt == attempt + 1
    && if cfg.maxRetryBackoffMs <= 0 then q.retryAt == now
       else if attempt <= 0 then q.retryAt == now + Backoff.Min(1000, cfg.maxRetryBackoffMs)
       else
         var base := Backoff.Min(10000 * Backoff.Pow2(attempt - 1), cfg.maxRetryBackoffMs);
         && base - base / 10 <= q.retryAt - now <= base + base / 10
         && Backoff.Min(1000, cfg.maxRetryBackoffMs) <= q.retryAt - now <= cfg.maxRetryBackoffMs
  }

  /** An entry for another try of the same attempt: due after a second, or the cap. */
  predicate IsContinuation(cfg: Config, q: BackoffEntry, id: IssueId, attempt: int, now: int) {
    && q.issue == id && q.attempt == attempt
    && q.retryAt == now + if cfg.maxRetryBackoffMs <= 0 then 0 else Backoff.Min(1000, cfg.maxRetryBackoffMs)
  }

  lemma RetryEntryIsRetry(cfg: Config, id: IssueId, attempt: int, now: int)
    ensures IsRetry(cfg, RetryEntry(cfg, id, attempt, now), id, attempt, now)
    ensures IsContinuation(cfg, ContinuationEntry(cfg, id, attempt, now), id, attempt, now)
  {
    if cfg.maxRetryBackoffMs >= 1 {
      Backoff.DelayIsBounded(cfg.seed, id, attempt, cfg.maxRetryBackoffMs);
      if attempt == 1 {
        assert Backoff.Pow2(0) == 1;
      }
    }
  }

  lemma UpsertedIsQueued(entries: seq<BackoffEntry>, next: BackoffEntry)
    requires AtMostOnce(entries)
    ensures next in Upserted(entries, next)
  {
    UpsertReplaces(entries, next);
  }

  /** The run counts as a success. */
  predicate Succeeds(entry: RunEntry, done: DoneError) {
    && done == NoError
    && (entry.phase == InitializingSession || (entry.phase == StreamingTurn && HasExplicitSuccessSignal(entry.lastEvent)))
  }

  /** A run that does not end as a success is queued for its next attempt, after the delay of its attempt,
      and is managed in no other way. */
  lemma FailureIsRetriedLater(cfg: Config, s: State, id: IssueId, done: DoneError, verdict: Verdict, now: int) returns (q: BackoffEntry)
    requires Sound(cfg, s) && id in s.work.running && !Succeeds(s.work.running[id], done)
    ensures
      var t := CompleteRun(cfg, s, id, done, verdict, now);
      q in t.work.backoff && IsRetry(cfg, q, id, s.work.running[id].attempt, now)
      && t.work.running == s.work.running - {id} && t.work.paused == s.work.paused
      && id in t.cache.issues && t.cache.issues[id] == s.work.running[id].issue
  {
    var entry := s.work.running[id];
    SuccessIffSignalled(entry, done);
    q := RetryEntry(cfg, id, entry.attempt, now);
    RetryEntryIsRetry(cfg, id, entry.attempt, now);
    UpsertedIsQueued(s.work.backoff, q);
    CachedKeepsSound(s.cache, entry.issue);
  }

  /** A success whose branch has advanced, or that had no head to compare with, is released; one whose branch
      is unchanged or cannot be checked is paused, and is queued in neither case. */
  lemma SuccessIsReleasedOrPaused(cfg: Config, s: State, id: IssueId, done: DoneError, verdict: Verdict, now: int)
    requires Sound(cfg, s) && id in s.work.running && Succeeds(s.work.running[id], done)
    ensures
      var t := CompleteRun(cfg, s, id, done, verdict, now);
      && t.work.running == s.work.running - {id} && t.work.backoff == s.work.backoff
      && t.work.paused == s.work.paused + (if verdict == BranchUnchanged || verdict == GitError then {id} else {})
      && (verdict == Advanced || verdict == NoClaimHead ==> !IsManaged(t.work, id) && t.cache == s.cache)
      && (verdict == BranchUnchanged || verdict == GitError ==>
            var issue := s.work.running[id].issue.(state := IssueRunning);
            issue.id in t.cache.issues && t.cache.issues[issue.id] == issue)
  {
    var entry := s.work.running[id];
    SuccessIffSignalled(entry, done);
    QueuedIffEntry(s.work.backoff, id);
    CachedKeepsSound(s.cache, entry.issue.(state := IssueRunning));
    SuccessIsKept(s, Stopped(s, {id}), id, entry.issue.(state := IssueRunning), verdict);
  }

  lemma SuccessIsKept(s: State, t: State, id: IssueId, issue: Issue, verdict: Verdict)
    requires t == Stopped(s, {id}) && id !in s.work.paused && !IsQueued(s.work.backoff, id)
    ensures
      var u := if IsVerified(verdict) then t else Paused(t, id, issue);
      && u.work.running == s.work.running - {id} && u.work.backoff == s.work.backoff
      && u.work.paused == s.work.paused + (if verdict == BranchUnchanged || verdict == GitError then {id} else {})
      && (verdict == Advanced || verdict == NoClaimHead ==> !IsManaged(u.work, id) && u.cache == s.cache)
  {
  }

  /** A dispatch that cannot start the agent is retried like a failed run; one that fails before that is
      tried again as the same attempt. */
  lemma FailedDispatchIsQueued(cfg: Config, s: State, issue: Issue, attempt: int, turn: Turn) returns (q: BackoffEntry)
    requires Sound(cfg, s) && issue.id != "" && (turn.launch != Starts || (issue.state != Unclaimed && issue.state != RetryQueued))
    ensures
      var t := DispatchIssue(cfg, s, issue, attempt, turn);
      && q in t.work.backoff && t.work.running == s.work.running
      && if turn.launch == StartFails && (issue.state == Unclaimed || issue.state == RetryQueued)
         then IsRetry(cfg, q, issue.id, attempt, turn.now)
         else IsContinuation(cfg, q, issue.id, attempt, turn.now) && t.cache == s.cache
  {
    q := if turn.launch == StartFails && (issue.state == Unclaimed || issue.state == RetryQueued)
      then RetryEntry(cfg, issue.id, attempt, turn.now) else ContinuationEntry(cfg, issue.id, attempt, turn.now);
    RetryEntryIsRetry(cfg, issue.id, attempt, turn.now);
    UpsertedIsQueued(s.work.backoff, q);
  }

  /** A due entry whose issue is neither in the tracker's list nor in the cache is tried again later; without
      a free slot it goes back to the end of the queue as it was. */
  lemma UnknownIsQueued(cfg: Config, s: State, entry: BackoffEntry, issues: map<IssueId, Issue>, turn: Turn) returns (q: BackoffEntry)
    requires Sound(cfg, s) && (!CanDispatch(cfg, s.work) || (entry.issue !in issues && entry.issue !in s.cache.issues))
    ensures
      var t := Handled(cfg, s, entry, issues, turn);
      && q in t.work.backoff && t.work.running == s.work.running && t.cache == s.cache
      && if |s.work.running| >= cfg.maxConcurrency then q == entry && t.work.backoff == s.work.backoff + [entry]
         else IsContinuation(cfg, q, entry.issue, entry.attempt, turn.now)
  {
    q := entry;
    if CanDispatch(cfg, s.work) {
      q := ContinuationEntry(cfg, entry.issue, entry.attempt, turn.now);
      RetryEntryIsRetry(cfg, entry.issue, entry.attempt, turn.now);
      UpsertedIsQueued(s.work.backoff, q);
    } else {
      assert (s.work.backoff + [entry])[|s.work.backoff|] == entry;
    }
  }

  // ---- starting runs ----------------------------------------------------------------------

  /** A run that was just started: the next serial number, nothing counted, nothing reported. */
  predicate IsStarted(s: State, t: State, issue: Issue, attempt: int) {
    && t.work.running == s.work.running[issue.id := RunEntry(s.started, issue, attempt, InitializingSession, 0, 0, "", "")]
    && t.work.backoff == s.work.backoff && t.work.paused == s.work.paused && t.started == s.started + 1
    && issue.id in t.cache.issues && t.cache.issues[issue.id] == issue
  }

  /** A turn with a free slot, a known issue and a launch that succeeds starts that issue, as the tracker
      lists it or else as it was seen last, with the attempt number of its entry. */
  lemma DueEntryIsStarted(cfg: Config, s: State, entry: BackoffEntry, issues: map<IssueId, Issue>, turn: Turn)
    requires Sound(cfg, s) && KeyedById(issues) && entry.issue != ""
    requires |s.work.running| < cfg.maxConcurrency && turn.launch == Starts
    requires entry.issue in issues || entry.issue in s.cache.issues
    ensures
      var known := if entry.issue in issues then issues[entry.issue] else s.cache.issues[entry.issue];
      IsStarted(s, Handled(cfg, s, entry, issues, turn), known.(state := RetryQueued), entry.attempt)
  {
    var known := if entry.issue in issues then issues[entry.issue] else s.cache.issues[entry.issue];
    CachedKeepsSound(s.cache, known.(state := RetryQueued));
  }

  /** The tracker shows the issue as unclaimed, nothing that is open blocks it, and it is not on the main
      branch already. */
  predicate IsEligible(issue: Issue, open: set<string>, turn: Turn) {
    issue.id != "" && issue.state == Unclaimed && !turn.alreadyImplemented && forall b :: b in issue.blockedBy ==> b !in open
  }

  lemma EligibleIsNotSkipped(issue: Issue, open: set<string>, turn: Turn)
    requires issue.id != ""
    ensures IsSkipped(issue, open, turn) <==> !IsEligible(issue, open, turn)
  {
  }

  /** An unmanaged eligible issue is started as its first attempt if the launch succeeds and a slot is free. */
  lemma EligibleIsStarted(cfg: Config, s: State, issue: Issue, open: set<string>, turn: Turn)
    requires Sound(cfg, s) && IsEligible(issue, open, turn) && turn.launch == Starts && |s.work.running| < cfg.maxConcurrency
    ensures IsStarted(s, DispatchIssue(cfg, s, issue, 1, turn), issue, 1)
  {
    CachedKeepsSound(s.cache, issue);
  }

  /** Issue k is the one, and is eligible at its turn. */
  predicate IsEligibleAt(issues: seq<Issue>, open: set<string>, turns: nat -> Turn, k: nat, id: IssueId) {
    k < |issues| && issues[k].id == id && IsEligible(issues[k], open, turns(k))
  }

  /** A new-issues pass takes on eligible issues only: what it manages that was not managed before was
      eligible at its turn. */
  lemma {:induction false} PassTakesEligible(
    cfg: Config, s: State, issues: seq<Issue>, open: set<string>, turns: nat -> Turn, from: nat, id: IssueId)
    requires Sound(cfg, s) && from <= |issues|
    requires IsManaged(NewIssuesPass(cfg, s, issues, open, turns, from).work, id)
    ensures IsManaged(s.work, id) || exists k: nat :: from <= k && IsEligibleAt(issues, open, turns, k, id)
    decreases |issues| - from
  {
    if from < |issues| {
      if IsSkipped(issues[from], open, turns(from)) || IsManaged(s.work, issues[from].id) {
        if IsSkipped(issues[from], open, turns(from)) || CanDispatch(cfg, s.work) {
          PassTakesEligible(cfg, s, issues, open, turns, from + 1, id);
        }
      } else if CanDispatch(cfg, s.work) {
        var t := Stopped(DispatchIssue(cfg, s, issues[from], 1, turns(from)), turns(from).stops);
        NewIssueKeepsSound(cfg, s, issues[from], turns(from));
        PassTakesEligible(cfg, t, issues, open, turns, from + 1, id);
        if IsManaged(t.work, id) && !IsManaged(s.work, id) {
          DispatchManagesOne(cfg, s, issues[from], turns(from), id);
          EligibleIsNotSkipped(issues[from], open, turns(from));
          assert IsEligibleAt(issues, open, turns, from, id);
        }
      }
    }
  }

  lemma DispatchManagesOne(cfg: Config, s: State, issue: Issue, turn: Turn, id: IssueId)
    requires Sound(cfg, s) && CanDispatch(cfg, s.work) && !IsManaged(s.work, issue.id)
    requires IsManaged(Stopped(DispatchIssue(cfg, s, issue, 1, turn), turn.stops).work, id) && !IsManaged(s.work, id)
    ensures id == issue.id && id != ""
  {
    DispatchKeepsSound(cfg, s, issue, 1, turn);
    var t := DispatchIssue(cfg, s, issue, 1, turn);
    if id != issue.id {
      TouchingManagesNoMore(s.work, t.work, issue.id, {}, id);
    }
  }

  /** No run is stopped in between. */
  ghost predicate NoStops(turns: nat -> Turn) {
    forall j: nat :: turns(j).stops == {}
  }

  /** Without interleaved stops, a pass that ends with a slot to spare has taken on every eligible issue. */
  lemma PassTakesAllEligible(
    cfg: Config, s: State, issues: seq<Issue>, open: set<string>, turns: nat -> Turn, from: nat, k: nat)
    requires Sound(cfg, s) && from <= k < |issues| && NoStops(turns)
    requires IsEligible(issues[k], open, turns(k))
    ensures TakesIfRoom(cfg, NewIssuesPass(cfg, s, issues, open, turns, from), issues[k].id)
  {
    var t := PassReaches(cfg, s, issues, open, turns, from, k);
    PassTakesNext(cfg, t, issues, open, turns, k);
  }

  /** A pass without a slot to spare at its end aside, what it does it does from issue k on as well. */
  lemma PassReaches(
    cfg: Config, s: State, issues: seq<Issue>, open: set<string>, turns: nat -> Turn, from: nat, k: nat) returns (t: State)
    requires Sound(cfg, s) && from <= k < |issues|
    ensures Sound(cfg, t)
    ensures CanDispatch(cfg, NewIssuesPass(cfg, s, issues, open, turns, from).work) ==>
              NewIssuesPass(cfg, s, issues, open, turns, from) == NewIssuesPass(cfg, t, issues, open, turns, k)
  {
    var pass, sound, room := PassOf(cfg, issues, open, turns), (u: State) => Sound(cfg, u), (u: State) => CanDispatch(cfg, u.work);
    forall u: State, j: nat | j < k && sound(u) ensures StepsOn(pass, sound, room, u, j) {
      PassStepsOn(cfg, issues, open, turns, pass, sound, room, u, j);
    }
    t := PassArrives(pass, sound, room, s, from, k);
  }

  function PassOf(cfg: Config, issues: seq<Issue>, open: set<string>, turns: nat -> Turn): (State, nat) -> State {
    (u: State, j: nat) => if j <= |issues| then NewIssuesPass(cfg, u, issues, open, turns, j) else u
  }

  lemma PassStepsOn(
    cfg: Config, issues: seq<Issue>, open: set<string>, turns: nat -> Turn,
    pass: (State, nat) -> State, sound: State -> bool, room: State -> bool, u: State, j: nat)
    requires pass == PassOf(cfg, issues, open, turns) && j < |issues| && Sound(cfg, u)
    requires forall v: State :: sound(v) == Sound(cfg, v) && room(v) == CanDispatch(cfg, v.work)
    ensures StepsOn(pass, sound, room, u, j)
  {
    var v := PassGoesOn(cfg, u, issues, open, turns, j);
    assert sound(v) && (room(pass(u, j)) ==> pass(u, j) == pass(v, j + 1));
  }

  /** The pass can go on from a sound state behind the next issue, unless it ends without room. */
  ghost predicate StepsOn(pass: (State, nat) -> State, sound: State -> bool, room: State -> bool, u: State, j: nat) {
    exists v: State :: sound(v) && (room(pass(u, j)) ==> pass(u, j) == pass(v, j + 1))
  }

  lemma {:induction false} PassArrives(
    pass: (State, nat) -> State, sound: State -> bool, room: State -> bool, s: State, from: nat, k: nat) returns (t: State)
    requires sound(s) && from <= k
    requires forall u: State, j: nat {:trigger StepsOn(pass, sound, room, u, j)} ::
               j < k && sound(u) ==> StepsOn(pass, sound, room, u, j)
    ensures sound(t) && (room(pass(s, from)) ==> pass(s, from) == pass(t, k))
    decreases k - from
  {
    t := s;
    if from < k {
      assert StepsOn(pass, sound, room, s, from);
      var v: State :| sound(v) && (room(pass(s, from)) ==> pass(s, from) == pass(v, from + 1));
      t := PassArrives(pass, sound, room, v, from + 1, k);
    }
  }

  lemma PassGoesOn(cfg: Config, s: State, issues: seq<Issue>, open: set<string>, turns: nat -> Turn, from: nat) returns (t: State)
    requires Sound(cfg, s) && from < |issues|
    ensures Sound(cfg, t)
    ensures CanDispatch(cfg, NewIssuesPass(cfg, s, issues, open, turns, from).work) ==>
              NewIssuesPass(cfg, s, issues, open, turns, from) == NewIssuesPass(cfg, t, issues, open, turns, from + 1)
  {
    t := s;
    if !IsSkipped(issues[from], open, turns(from)) && CanDispatch(cfg, s.work) && !IsManaged(s.work, issues[from].id) {
      NewIssueKeepsSound(cfg, s, issues[from], turns(from));
      t := Stopped(DispatchIssue(cfg, s, issues[from], 1, turns(from)), turns(from).stops);
    }
  }

  predicate TakesIfRoom(cfg: Config, t: State, id: IssueId) {
    CanDispatch(cfg, t.work) ==> IsManaged(t.work, id)
  }

  lemma PassTakesNext(cfg: Config, s: State, issues: seq<Issue>, open: set<string>, turns: nat -> Turn, k: nat)
    requires Sound(cfg, s) && k < |issues|
    ensures
      NoStops(turns) && IsEligible(issues[k], open, turns(k)) ==>
        TakesIfRoom(cfg, NewIssuesPass(cfg, s, issues, open, turns, k), issues[k].id)
  {
    if NoStops(turns) && IsEligible(issues[k], open, turns(k)) {
      var t := NextIssue(cfg, s, issues, open, turns, k);
      PassKeepsManaged(cfg, t, issues, open, turns, k + 1, issues[k].id);
    }
  }

  lemma NothingStopped(s: State)
    ensures Stopped(s, {}).work == s.work
  {
    assert s.work.running - {} == s.work.running;
  }

  lemma LandedIsManaged(w: Work, id: IssueId, attempt: int)
    requires Landed(w, id, attempt)
    ensures IsManaged(w, id)
  {
    QueuedIffEntry(w.backoff, id);
  }

  /** A pass that ends with a slot to spare goes on behind every issue, which it has then taken on if it is
      eligible. */
  lemma NextIssue(cfg: Config, s: State, issues: seq<Issue>, open: set<string>, turns: nat -> Turn, k: nat) returns (t: State)
    requires Sound(cfg, s) && k < |issues| && NoStops(turns)
    ensures Sound(cfg, t)
    ensures CanDispatch(cfg, NewIssuesPass(cfg, s, issues, open, turns, k).work) ==>
              && NewIssuesPass(cfg, s, issues, open, turns, k) == NewIssuesPass(cfg, t, issues, open, turns, k + 1)
              && (IsEligible(issues[k], open, turns(k)) ==> IsManaged(t.work, issues[k].id))
  {
    t := s;
    if issues[k].id != "" {
      EligibleIsNotSkipped(issues[k], open, turns(k));
    }
    if !IsSkipped(issues[k], open, turns(k)) && CanDispatch(cfg, s.work) && !IsManaged(s.work, issues[k].id) {
      t := Stopped(DispatchIssue(cfg, s, issues[k], 1, turns(k)), turns(k).stops);
      NewIssueIsTaken(cfg, s, issues[k], turns(k));
    }
  }

  lemma NewIssueIsTaken(cfg: Config, s: State, issue: Issue, turn: Turn)
    requires Sound(cfg, s) && CanDispatch(cfg, s.work) && !IsManaged(s.work, issue.id) && turn.stops == {}
    ensures
      var t := Stopped(DispatchIssue(cfg, s, issue, 1, turn), turn.stops);
      Sound(cfg, t) && (issue.id != "" ==> IsManaged(t.work, issue.id))
  {
    NewIssueKeepsSound(cfg, s, issue, turn);
    DispatchKeepsSound(cfg, s, issue, 1, turn);
    NothingStopped(DispatchIssue(cfg, s, issue, 1, turn));
    if issue.id != "" {
      LandedIsManaged(DispatchIssue(cfg, s, issue, 1, turn).work, issue.id, 1);
    }
  }

  /** Without stops, what is managed stays managed. */
  lemma {:induction false} PassKeepsManaged(
    cfg: Config, s: State, issues: seq<Issue>, open: set<string>, turns: nat -> Turn, from: nat, id: IssueId)
    requires Sound(cfg, s) && from <= |issues| && NoStops(turns)
    ensures IsManaged(s.work, id) ==> IsManaged(NewIssuesPass(cfg, s, issues, open, turns, from).work, id)
    decreases |issues| - from
  {
    if from < |issues| {
      if IsSkipped(issues[from], open, turns(from)) || (CanDispatch(cfg, s.work) && IsManaged(s.work, issues[from].id)) {
        PassKeepsManaged(cfg, s, issues, open, turns, from + 1, id);
      } else if CanDispatch(cfg, s.work) {
        var t := Stopped(DispatchIssue(cfg, s, issues[from], 1, turns(from)), turns(from).stops);
        NewIssueKeepsSound(cfg, s, issues[from], turns(from));
        DispatchKeepsManaged(cfg, s, issues[from], turns(from), id);
        PassKeepsManaged(cfg, t, issues, open, turns, from + 1, id);
      }
    }
  }

  lemma DispatchKeepsManaged(cfg: Config, s: State, issue: Issue, turn: Turn, id: IssueId)
    requires Sound(cfg, s) && CanDispatch(cfg, s.work) && !IsManaged(s.work, issue.id) && turn.stops == {}
    ensures IsManaged(s.work, id) ==> IsManaged(Stopped(DispatchIssue(cfg, s, issue, 1, turn), turn.stops).work, id)
  {
    DispatchKeepsSound(cfg, s, issue, 1, turn);
    NothingStopped(DispatchIssue(cfg, s, issue, 1, turn));
    if id != issue.id {
      TouchingKeepsManaged(s.work, DispatchIssue(cfg, s, issue, 1, turn).work, issue.id, id);
    }
  }

  lemma TouchingKeepsManaged(w: Work, t: Work, touched: IssueId, id: IssueId)
    requires OnlyTouches(w, t, touched, {}) && id != touched
    ensures IsManaged(w, id) ==> IsManaged(t, id)
  {
    QueuedIffEntry(w.backoff, id);
    QueuedIffEntry(t.backoff, id);
  }

  // ---- the queue and the cache ------------------------------------------------------------

  /** An entry is taken off the queue exactly when its time has come. */
  lemma {:induction false} DueWhenTimeHasCome(entries: seq<BackoffEntry>, now: int, e: BackoffEntry)
    ensures e in Due(entries, now) <==> e in entries && e.retryAt <= now
    ensures e in NotDue(entries, now) <==> e in entries && e.retryAt > now
  {
    if entries != [] {
      var init, last := entries[..|entries| - 1], entries[|entries| - 1];
      assert entries == init + [last];
      DueWhenTimeHasCome(init, now, e);
    }
  }

  /** So an entry whose time has not come stays in the queue as it is, and one whose time has come waits for
      a pass with a free slot. */
  lemma EarlyEntryStays(cfg: Config, s: State, issues: map<IssueId, Issue>, now: int, turns: nat -> Turn, e: BackoffEntry)
    requires Sound(cfg, s) && KeyedById(issues) && e in s.work.backoff
    ensures e.retryAt > now || |s.work.running| >= cfg.maxConcurrency ==> e in RetryPass(cfg, s, issues, now, turns).work.backoff
    ensures e.retryAt <= now && |s.work.running| < cfg.maxConcurrency ==>
              exists k: nat :: k < |Due(s.work.backoff, now)| && Due(s.work.backoff, now)[k] == e
  {
    DueWhenTimeHasCome(s.work.backoff, now, e);
    RetryPassConserves(cfg, s, issues, now, turns);
  }

  /** A full cache makes room for a new issue by dropping the one it has held longest; otherwise nothing is
      dropped, and an issue it knows is updated in place. */
  lemma OldestIsEvicted(c: IssueCache, issue: Issue, id: IssueId)
    requires CacheIsSound(c)
    ensures
      var full := issue.id !in c.issues && |c.issues| == 1000;
      && (full ==> c.order != [])
      && (id in Cached(c, issue).issues <==> id == issue.id || (id in c.issues && !(full && id == c.order[0])))
      && (id in c.issues && id != issue.id && id in Cached(c, issue).issues ==> Cached(c, issue).issues[id] == c.issues[id])
      && Cached(c, issue).order == (if issue.id in c.issues then c.order
                                    else (if full then c.order[1..] else c.order) + [issue.id])
  {
    CachedKeepsSound(c, issue);
    if issue.id !in c.issues && |c.issues| == 1000 {
      var some :| some in c.issues.Keys;
      assert some in c.order;
    }
  }

  // ---- events, stops and reconciliation ---------------------------------------------------

  /** An agent event moves a run on to streaming, or to failed with its error if the agent says so, and is
      remembered; nothing else changes but the counters. */
  lemma EventIsRecorded(cfg: Config, s: State, id: IssueId, kind: string, tokensIn: int, tokensOut: int, error: string)
    requires Sound(cfg, s)
    ensures
      var t := AgentEvent(s, id, kind, tokensIn, tokensOut, error);
      && t.work.backoff == s.work.backoff && t.work.paused == s.work.paused && t.cache == s.cache && t.started == s.started
      && t.work.running.Keys == s.work.running.Keys
      && (forall other :: other in s.work.running && other != id ==> t.work.running[other] == s.work.running[other])
      && (id in s.work.running ==>
            var before, after := s.work.running[id], t.work.running[id];
            var fails := kind == "turn/failed" || kind == "turn/cancelled" || kind == "turn/canceled";
            && after.lastEvent == kind && after.issue == before.issue && after.attempt == before.attempt && after.serial == before.serial
            && (before.phase == InitializingSession || before.phase == StreamingTurn ==>
                  after.phase == (if fails then Failed else StreamingTurn)
                  && after.error == (if fails && error != "" then error else before.error))
            && (before.phase != InitializingSession && before.phase != StreamingTurn ==>
                  after.phase == before.phase && after.error == before.error))
  {
  }

  /** A stop removes the run it is about and no other: one with another serial number, started since for the
      same issue, stays. */
  lemma StopIsForItsRun(s: State, id: IssueId, serial: nat)
    ensures
      var t := StopRun(s, id, serial);
      && t.work.backoff == s.work.backoff && t.work.paused == s.work.paused && t.cache == s.cache
      && (forall other :: other in t.work.running <==>
            other in s.work.running && !(other == id && s.work.running[id].serial == serial))
      && (forall other :: other in t.work.running ==> t.work.running[other] == s.work.running[other])
  {
  }

  /** A shutdown stops every run and keeps the queue and what is paused. */
  lemma ShutdownStopsAll(cfg: Config, s: State)
    ensures
      var t := Next(cfg, s, Shutdown);
      t.work.running == map[] && t.work.backoff == s.work.backoff && t.work.paused == s.work.paused && t.statsRunning == 0
  {
    assert s.work.running - s.work.running.Keys == map[];
  }

  /** A poll remembers the listed issues one after the other, and manages none. */
  lemma PollIsRemembered(cfg: Config, s: State, issues: seq<Issue>, issue: Issue)
    requires Sound(cfg, s)
    ensures
      var t := Next(cfg, s, Poll(issues + [issue]));
      && issue.id in t.cache.issues && t.cache.issues[issue.id] == issue
      && t == Next(cfg, Next(cfg, s, Poll(issues)), Poll([issue])) && t.work == s.work
      && Next(cfg, s, Poll([])) == s
  {
    assert (issues + [issue])[..|issues|] == issues && (issues + [issue])[|issues|] == issue;
    assert [issue][..0] == [] && CacheAll(CacheAll(s.cache, issues), []) == CacheAll(s.cache, issues);
    CacheAllKeepsSound(s.cache, issues);
    CachedKeepsSound(CacheAll(s.cache, issues), issue);
  }

  /** Reconciliation drops runs without a process, marks the overdue ones that have not failed yet, and leaves
      the others alone. */
  lemma OverdueIsMarked(cfg: Config, s: State, ids: set<IssueId>, phase: RunPhase, dropped: set<IssueId>)
    requires Sound(cfg, s) && phase in {TimedOut, Stalled}
    ensures
      var t := Reconciled(s, ids, phase, dropped);
      && t.work.backoff == s.work.backoff && t.work.paused == s.work.paused && t.cache == s.cache
      && t.work.running.Keys == s.work.running.Keys - dropped
      && forall id :: id in t.work.running ==>
           var before, after := s.work.running[id], t.work.running[id];
           if id in ids && (before.phase == InitializingSession || before.phase == StreamingTurn)
           then after == before.(phase := phase, error := if phase == TimedOut then "run timed out" else "run stalled")
           else after == before
  {
  }

  // ---- what counts as a success signal ----------------------------------------------------

  /** The word occurs in the text. */
  ghost predicate Occurs(word: string, s: string) {
    exists i :: IsWordAt(word, s, i)
  }

  predicate IsWordAt(word: string, s: string, i: int) {
    0 <= i <= |s| - |word| && s[i..i + |word|] == word
  }

  lemma {:induction false} ContainsIff(s: string, word: string)
    ensures Contains(s, word) <==> Occurs(word, s)
  {
    if word <= s {
      assert IsWordAt(word, s, 0);
    } else if s != "" {
      ContainsIff(s[1..], word);
      if i :| IsWordAt(word, s[1..], i) {
        assert s[1..][i..i + |word|] == s[i + 1..i + 1 + |word|];
        assert IsWordAt(word, s, i + 1);
      }
      if i :| IsWordAt(word, s, i) {
        assert i > 0;
        var j := i - 1;
        assert s[1..][j..j + |word|] == s[i..i + |word|];
        assert IsWordAt(word, s[1..], j);
      }
    }
  }

  /** A message, read in lower case and without white space around it, signals success exactly if it is one of
      four event names or speaks of both completion and success. */
  lemma SignalIff(message: string)
    ensures
      var said := Trim(IsGoSpace, ToLower(message));
      HasExplicitSuccessSignal(message) <==>
        || said == "turn/completed" || said == "item/completed" || said == "task/completed" || said == "session.status"
        || (Occurs("completed", said) && Occurs("success", said))
  {
    var said := Trim(IsGoSpace, ToLower(message));
    ContainsIff(said, "completed");
    ContainsIff(said, "success");
    if said == "" {
      assert !IsWordAt("completed", said, 0);
    }
  }
}
