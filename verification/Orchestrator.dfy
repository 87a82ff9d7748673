/** The orchestrator object: methods that update its running map, backoff queue, paused set, issue
    cache and totals, each proved against the step of OrchestratorModel that specifies it. */
module Orchestrators {
  import opened OrchestratorModel
  import opened OrchestratorRuns
  import Backoff

  class Orchestrator {
    const cfg: Config
    var running: map<IssueId, RunEntry>
    var backoff: seq<BackoffEntry>
    var paused: set<IssueId>
    var issueCache: map<IssueId, Issue>
    var issueCacheOrder: seq<IssueId>
    var statsRunning: int
    var totalTokensIn: int
    var totalTokensOut: int
    var started: nat

    constructor (cfg: Config)
      ensures this.cfg == cfg && View() == INITIAL && Valid()
    {
      this.cfg := cfg;
      running, backoff, paused := map[], [], {};
      issueCache, issueCacheOrder := map[], [];
      statsRunning, totalTokensIn, totalTokensOut, started := 0, 0, 0, 0;
      new;
      InitiallySound(cfg);
    }

    function View(): State
      reads this
    {
      State(Work(running, backoff, paused), IssueCache(issueCache, issueCacheOrder),
            statsRunning, totalTokensIn, totalTokensOut, started)
    }

    ghost predicate Valid()
      reads this
    {
      CacheIsSound(IssueCache(issueCache, issueCacheOrder))
    }

    method PutIssueCache(issue: Issue)
      requires Valid()
      modifies this`issueCache, this`issueCacheOrder
      ensures Valid() && View() == old(View()).(cache := Cached(old(View()).cache, issue))
    {
      CachedKeepsSound(View().cache, issue);
      if issue.id in issueCache {
        issueCache := issueCache[issue.id := issue];
        return;
      }
      if |issueCache| >= MAX_ISSUE_CACHE_SIZE {
        assert exists some :: some in issueCache.Keys;
        var oldest := issueCacheOrder[0];
        issueCacheOrder := issueCacheOrder[1..];
        issueCache := issueCache - {oldest};
      }
      issueCache := issueCache[issue.id := issue];
      issueCacheOrder := issueCacheOrder + [issue.id];
    }

    method UpsertBackoff(next: BackoffEntry)
      modifies this`backoff
      ensures backoff == Upserted(old(backoff), next)
    {
      for i := 0 to |backoff|
        invariant backoff == old(backoff)
        invariant forall k :: 0 <= k < i ==> backoff[k].issue != next.issue
      {
        if backoff[i].issue == next.issue {
          UpsertFound(backoff, next, i);
          backoff := backoff[i := next];
          return;
        }
      }
      UpsertMissing(backoff, next);
      backoff := backoff + [next];
    }

    method EnqueueContinuation(id: IssueId, attempt: int, now: int)
      modifies this`backoff
      ensures View() == Continue(cfg, old(View()), id, attempt, now)
    {
      var delay := Backoff.CalculateBackoff(cfg.seed, id, 0, cfg.maxRetryBackoffMs);
      UpsertBackoff(BackoffEntry(id, attempt, now + delay));
    }

    method EnqueueRetry(issue: Issue, attempt: int, now: int)
      requires Valid()
      modifies this`backoff, this`issueCache, this`issueCacheOrder
      ensures Valid() && View() == Retry(cfg, old(View()), issue, attempt, now)
    {
      var delay := Backoff.CalculateBackoff(cfg.seed, issue.id, attempt, cfg.maxRetryBackoffMs);
      UpsertBackoff(BackoffEntry(issue.id, attempt + 1, now + delay));
      PutIssueCache(issue);
    }

    method DispatchIssue(issue: Issue, attempt: int, turn: Turn)
      requires Valid()
      modifies this
      ensures Valid() && View() == OrchestratorModel.DispatchIssue(cfg, old(View()), issue, attempt, turn)
    {
      if issue.id == "" {
        return;
      }
      if turn.launch == ClaimFails || (issue.state != Unclaimed && issue.state != RetryQueued) {
        EnqueueContinuation(issue.id, attempt, turn.now);
        return;
      }
      if turn.launch == WorkspaceFails || turn.launch == PromptFails {
        EnqueueContinuation(issue.id, attempt, turn.now);
        return;
      }
      if turn.launch == StartFails {
        EnqueueRetry(issue, attempt, turn.now);
        return;
      }
      running := running[issue.id := RunEntry(started, issue, attempt, InitializingSession, 0, 0, "", "")];
      started := started + 1;
      PutIssueCache(issue);
      statsRunning := |running|;
    }

    /** Runs that another goroutine stops; only removes. */
    method StopAgents(ids: set<IssueId>)
      modifies this`running, this`statsRunning
      ensures View() == Stopped(old(View()), ids)
    {
      running := running - ids;
      statsRunning := |running|;
    }

    /** Takes the due entries off the queue. */
    method TakeDue(now: int) returns (ready: seq<BackoffEntry>)
      modifies this`backoff
      ensures ready == Due(old(backoff), now) && backoff == NotDue(old(backoff), now)
    {
      ready := [];
      var remaining: seq<BackoffEntry> := [];
      for i := 0 to |backoff|
        invariant ready == Due(backoff[..i], now) && remaining == NotDue(backoff[..i], now)
      {
        assert backoff[..i + 1][..i] == backoff[..i];
        if backoff[i].retryAt > now {
          remaining := remaining + [backoff[i]];
        } else {
          ready := ready + [backoff[i]];
        }
      }
      assert backoff[..|backoff|] == backoff;
      backoff := remaining;
    }

    method HandleReadyEntry(entry: BackoffEntry, issues: map<IssueId, Issue>, turn: Turn)
      requires Valid()
      modifies this
      ensures Valid() && View() == HandleReady(cfg, old(View()), entry, issues, turn)
    {
      if |running| >= cfg.maxConcurrency {
        backoff := backoff + [entry];
      } else if entry.issue in issues {
        DispatchIssue(issues[entry.issue].(state := RetryQueued), entry.attempt, turn);
      } else if entry.issue in issueCache {
        DispatchIssue(issueCache[entry.issue].(state := RetryQueued), entry.attempt, turn);
      } else {
        EnqueueContinuation(entry.issue, entry.attempt, turn.now);
      }
      StopAgents(turn.stops);
    }

    method DispatchReadyBackoff(issues: map<IssueId, Issue>, now: int, turns: nat -> Turn)
      requires Valid()
      modifies this
      ensures Valid() && View() == RetryPass(cfg, old(View()), issues, now, turns)
    {
      if |running| >= cfg.maxConcurrency {
        return;
      }
      var ready := TakeDue(now);
      HandleReadyEntries(ready, issues, turns);
    }

    method HandleReadyEntries(ready: seq<BackoffEntry>, issues: map<IssueId, Issue>, turns: nat -> Turn)
      requires Valid()
      modifies this
      ensures Valid() && View() == HandleAllReady(cfg, old(View()), ready, issues, turns)
    {
      for i := 0 to |ready|
        invariant Valid() && View() == HandleAllReady(cfg, old(View()), ready[..i], issues, turns)
      {
        HandleReadyEntry(ready[i], issues, turns(i));
        OneMoreReady(cfg, old(View()), ready, i, issues, turns);
      }
      assert ready[..|ready|] == ready;
    }

    method IsManagedIssue(id: IssueId) returns (managed: bool)
      ensures managed == IsManaged(View().work, id)
    {
      if id in running || id in paused {
        return true;
      }
      for i := 0 to |backoff|
        invariant forall k :: 0 <= k < i ==> backoff[k].issue != id
      {
        if backoff[i].issue == id {
          return true;
        }
      }
      managed := false;
    }

    method DispatchUnclaimedIssues(issues: seq<Issue>, open: set<string>, turns: nat -> Turn)
      requires Valid()
      modifies this
      ensures Valid() && View() == NewIssuesPass(cfg, old(View()), issues, open, turns, 0)
    {
      for i := 0 to |issues|
        invariant Valid()
        invariant NewIssuesPass(cfg, View(), issues, open, turns, i) == NewIssuesPass(cfg, old(View()), issues, open, turns, 0)
      {
        var skipped := SkipIssue(issues[i], open, turns(i));
        if !skipped {
          if |running| >= cfg.maxConcurrency {
            return;
          }
          var managed := IsManagedIssue(issues[i].id);
          if !managed {
            DispatchAndStop(issues[i], turns(i));
          }
        }
      }
    }

    method DispatchAndStop(issue: Issue, turn: Turn)
      requires Valid()
      modifies this
      ensures Valid()
      ensures View() == Stopped(OrchestratorModel.DispatchIssue(cfg, old(View()), issue, 1, turn), turn.stops)
    {
      DispatchIssue(issue, 1, turn);
      StopAgents(turn.stops);
    }

    method HandleAgentEvent(id: IssueId, kind: string, tokensIn: int, tokensOut: int, error: string)
      modifies this
      ensures View() == AgentEvent(old(View()), id, kind, tokensIn, tokensOut, error)
    {
      if id !in running {
        return;
      }
      var entry := running[id].(lastEvent := kind);
      if entry.phase == InitializingSession {
        entry := entry.(phase := StreamingTurn);
      }
      if tokensIn > entry.tokensIn {
        totalTokensIn := totalTokensIn + (tokensIn - entry.tokensIn);
        entry := entry.(tokensIn := tokensIn);
      }
      if tokensOut > entry.tokensOut {
        totalTokensOut := totalTokensOut + (tokensOut - entry.tokensOut);
        entry := entry.(tokensOut := tokensOut);
      }
      if IsFailureEvent(kind) && IsActive(entry.phase) {
        entry := entry.(phase := Failed);
        if error != "" {
          entry := entry.(error := error);
        }
      }
      running := running[id := entry];
    }

    /** An unverified success waits for review. */
    method Pause(id: IssueId, issue: Issue)
      requires Valid()
      modifies this`paused, this`issueCache, this`issueCacheOrder
      ensures Valid() && View() == Paused(old(View()), id, issue)
    {
      paused := paused + {id};
      PutIssueCache(issue);
    }

    method CompleteRun(id: IssueId, done: DoneError, verdict: Verdict, now: int)
      requires Valid()
      modifies this
      ensures Valid() && View() == OrchestratorModel.CompleteRun(cfg, old(View()), id, done, verdict, now)
    {
      if id !in running {
        return;
      }
      var entry := running[id];
      StopAgents({id});
      var phase := FinalPhase(entry.phase, PhaseMessage(entry), done);
      if phase == Succeeded {
        if verdict == BranchUnchanged || verdict == GitError {
          Pause(id, entry.issue.(state := IssueRunning));
        }
        return;
      }
      EnqueueRetry(entry.issue, entry.attempt, now);
    }

    method FinishStop(id: IssueId, serial: nat)
      modifies this`running, this`statsRunning
      ensures View() == StopRun(old(View()), id, serial)
    {
      if id in running && running[id].serial == serial {
        running := running - {id};
        statsRunning := |running|;
      }
    }
  }

  /** The blockers that are still open, in order and as often as they are named. */
  function OpenAmong(blockedBy: seq<string>, open: set<string>): (unresolved: seq<string>)
    ensures |unresolved| > 0 <==> exists k :: 0 <= k < |blockedBy| && blockedBy[k] in open
  {
    if blockedBy == [] then []
    else
      var last := |blockedBy| - 1;
      OpenAmong(blockedBy[..last], open) + if blockedBy[last] in open then [blockedBy[last]] else []
  }

  /** They are what is left of the list, as a multiset, when the closed ones are taken out. */
  lemma {:induction false} OpenAmongCounts(blockedBy: seq<string>, open: set<string>, b: string)
    ensures multiset(OpenAmong(blockedBy, open))[b] == if b in open then multiset(blockedBy)[b] else 0
  {
    if blockedBy != [] {
      var last := |blockedBy| - 1;
      OpenAmongCounts(blockedBy[..last], open, b);
      assert blockedBy == blockedBy[..last] + [blockedBy[last]];
    }
  }

  method UnresolvedBlockers(blockedBy: seq<string>, open: set<string>) returns (unresolved: seq<string>)
    ensures unresolved == OpenAmong(blockedBy, open)
    ensures forall b :: multiset(unresolved)[b] == if b in open then multiset(blockedBy)[b] else 0
    ensures |unresolved| > 0 <==> exists k :: 0 <= k < |blockedBy| && blockedBy[k] in open
  {
    unresolved := [];
    for i := 0 to |blockedBy|
      invariant unresolved == OpenAmong(blockedBy[..i], open)
    {
      assert blockedBy[..i + 1][..i] == blockedBy[..i];
      if blockedBy[i] in open {
        unresolved := unresolved + [blockedBy[i]];
      }
    }
    assert blockedBy[..|blockedBy|] == blockedBy;
    forall b ensures multiset(unresolved)[b] == if b in open then multiset(blockedBy)[b] else 0 {
      OpenAmongCounts(blockedBy, open, b);
    }
  }

  method SkipIssue(issue: Issue, open: set<string>, turn: Turn) returns (skip: bool)
    ensures skip == IsSkipped(issue, open, turn)
  {
    if issue.state != Unclaimed {
      return true;
    }
    var unresolved := UnresolvedBlockers(issue.blockedBy, open);
    skip := |unresolved| > 0 || turn.alreadyImplemented;
  }

  lemma OneMoreReady(
    cfg: Config, s: State, ready: seq<BackoffEntry>, i: nat, issues: map<IssueId, Issue>, turns: nat -> Turn)
    requires i < |ready|
    ensures HandleAllReady(cfg, s, ready[..i + 1], issues, turns) ==
            HandleReady(cfg, HandleAllReady(cfg, s, ready[..i], issues, turns), ready[i], issues, turns(i))
  {
    assert ready[..i + 1][..i] == ready[..i];
  }

  lemma {:induction false} UpsertFound(entries: seq<BackoffEntry>, next: BackoffEntry, i: nat)
    requires i < |entries| && entries[i].issue == next.issue
    requires forall k :: 0 <= k < i ==> entries[k].issue != next.issue
    ensures Upserted(entries, next) == entries[i := next]
  {
    if i > 0 {
      UpsertFound(entries[1..], next, i - 1);
      assert entries[i := next] == [entries[0]] + entries[1..][i - 1 := next];
    }
  }

  lemma {:induction false} UpsertMissing(entries: seq<BackoffEntry>, next: BackoffEntry)
    requires forall k :: 0 <= k < |entries| ==> entries[k].issue != next.issue
    ensures Upserted(entries, next) == entries + [next]
  {
    if entries != [] {
      UpsertMissing(entries[1..], next);
      assert entries == [entries[0]] + entries[1..];
    }
  }
}
