/** Token accounting over whole runs (internal/orchestrator/orchestrator_runtime.go:27-78, 80-90,
    550-556; internal/orchestrator/orchestrator.go:640-654). */
module OrchestratorTokens {
  import opened OrchestratorModel
  import opened OrchestratorRuns
  import Backoff

  /** Which of the two counters is meant. */
  datatype Counter = TokensIn | TokensOut

  function Count(entry: RunEntry, counter: Counter): int {
    if counter == TokensIn then entry.tokensIn else entry.tokensOut
  }

  function Total(s: State, counter: Counter): int {
    if counter == TokensIn then s.totalTokensIn else s.totalTokensOut
  }

  /** Running entries carry distinct serial numbers below the number of runs started so far. */
  ghost predicate IsNumbered(w: Work, started: nat) {
    && (forall id :: id in w.running ==> w.running[id].serial < started)
    && (forall id, other :: id in w.running && other in w.running && id != other ==>
          w.running[id].serial != w.running[other].serial)
  }

  /** Every entry of `w` is an entry of `v` with the same serial and counts, or a run started since,
      with nothing counted yet. */
  ghost predicate Continues(v: Work, from: nat, w: Work, to: nat) {
    && from <= to
    && forall id :: id in w.running ==>
         || (id in v.running && SameCounts(v.running[id], w.running[id]))
         || (from <= w.running[id].serial < to && w.running[id].tokensIn == 0 && w.running[id].tokensOut == 0)
  }

  predicate SameCounts(e: RunEntry, f: RunEntry) {
    e.serial == f.serial && e.tokensIn == f.tokensIn && e.tokensOut == f.tokensOut
  }

  /** A step that counts nothing. */
  ghost predicate KeepsCounts(s: State, t: State) {
    && t.totalTokensIn == s.totalTokensIn && t.totalTokensOut == s.totalTokensOut
    && IsNumbered(t.work, t.started) && Continues(s.work, s.started, t.work, t.started)
  }

  lemma KeepsCountsTransitive(s: State, t: State, u: State)
    requires KeepsCounts(s, t) && KeepsCounts(t, u)
    ensures KeepsCounts(s, u)
  {
  }

  lemma LaunchKeepsCounts(s: State, issue: Issue, attempt: int)
    requires IsNumbered(s.work, s.started)
    ensures KeepsCounts(s, Launch(s, issue, attempt))
  {
  }

  lemma SameRunningKeepsCounts(s: State, t: State)
    requires IsNumbered(s.work, s.started) && t.work.running == s.work.running && t.started == s.started
    requires t.totalTokensIn == s.totalTokensIn && t.totalTokensOut == s.totalTokensOut
    ensures KeepsCounts(s, t)
  {
  }

  lemma DispatchKeepsCounts(cfg: Config, s: State, issue: Issue, attempt: int, turn: Turn)
    requires IsNumbered(s.work, s.started)
    ensures KeepsCounts(s, DispatchIssue(cfg, s, issue, attempt, turn))
  {
    var t := DispatchIssue(cfg, s, issue, attempt, turn);
    if t.started == s.started {
      SameRunningKeepsCounts(s, t);
    } else {
      LaunchKeepsCounts(s, issue, attempt);
    }
  }

  lemma StoppedKeepsCounts(s: State, ids: set<IssueId>)
    requires IsNumbered(s.work, s.started)
    ensures KeepsCounts(s, Stopped(s, ids))
  {
  }

  lemma HandleReadyKeepsCounts(cfg: Config, s: State, entry: BackoffEntry, issues: map<IssueId, Issue>, turn: Turn)
    requires IsNumbered(s.work, s.started)
    ensures KeepsCounts(s, HandleReady(cfg, s, entry, issues, turn))
  {
    var handled: State;
    if !CanDispatch(cfg, s.work) {
      handled := s.(work := Requeued(s.work, entry));
    } else if entry.issue in issues {
      handled := DispatchIssue(cfg, s, issues[entry.issue].(state := RetryQueued), entry.attempt, turn);
      DispatchKeepsCounts(cfg, s, issues[entry.issue].(state := RetryQueued), entry.attempt, turn);
    } else if entry.issue in s.cache.issues {
      handled := DispatchIssue(cfg, s, s.cache.issues[entry.issue].(state := RetryQueued), entry.attempt, turn);
      DispatchKeepsCounts(cfg, s, s.cache.issues[entry.issue].(state := RetryQueued), entry.attempt, turn);
    } else {
      handled := Continue(cfg, s, entry.issue, entry.attempt, turn.now);
    }
    StoppedKeepsCounts(handled, turn.stops);
    KeepsCountsTransitive(s, handled, Stopped(handled, turn.stops));
  }

  lemma {:induction false} HandleAllReadyKeepsCounts(
    cfg: Config, s: State, ready: seq<BackoffEntry>, issues: map<IssueId, Issue>, turns: nat -> Turn)
    requires IsNumbered(s.work, s.started)
    ensures KeepsCounts(s, HandleAllReady(cfg, s, ready, issues, turns))
  {
    if ready != [] {
      var n := |ready| - 1;
      var mid := HandleAllReady(cfg, s, ready[..n], issues, turns);
      HandleAllReadyKeepsCounts(cfg, s, ready[..n], issues, turns);
      HandleReadyKeepsCounts(cfg, mid, ready[n], issues, turns(n));
      KeepsCountsTransitive(s, mid, HandleReady(cfg, mid, ready[n], issues, turns(n)));
    }
  }

  lemma RetryPassKeepsCounts(cfg: Config, s: State, issues: map<IssueId, Issue>, now: int, turns: nat -> Turn)
    requires IsNumbered(s.work, s.started)
    ensures KeepsCounts(s, RetryPass(cfg, s, issues, now, turns))
  {
    if CanDispatch(cfg, s.work) {
      var start := s.(work := s.work.(backoff := NotDue(s.work.backoff, now)));
      HandleAllReadyKeepsCounts(cfg, start, Due(s.work.backoff, now), issues, turns);
    }
  }

  lemma {:induction false} NewIssuesPassKeepsCounts(
    cfg: Config, s: State, issues: seq<Issue>, open: set<string>, turns: nat -> Turn, k: nat)
    requires IsNumbered(s.work, s.started) && k <= |issues|
    ensures KeepsCounts(s, NewIssuesPass(cfg, s, issues, open, turns, k))
    decreases |issues| - k
  {
    if k < |issues| {
      if IsSkipped(issues[k], open, turns(k)) {
        NewIssuesPassKeepsCounts(cfg, s, issues, open, turns, k + 1);
      } else if CanDispatch(cfg, s.work) {
        if IsManaged(s.work, issues[k].id) {
          NewIssuesPassKeepsCounts(cfg, s, issues, open, turns, k + 1);
        } else {
          var dispatched := DispatchIssue(cfg, s, issues[k], 1, turns(k));
          var t := Stopped(dispatched, turns(k).stops);
          DispatchKeepsCounts(cfg, s, issues[k], 1, turns(k));
          StoppedKeepsCounts(dispatched, turns(k).stops);
          KeepsCountsTransitive(s, dispatched, t);
          NewIssuesPassKeepsCounts(cfg, t, issues, open, turns, k + 1);
          KeepsCountsTransitive(s, t, NewIssuesPass(cfg, t, issues, open, turns, k + 1));
        }
      }
    }
  }

  lemma CompleteKeepsCounts(cfg: Config, s: State, id: IssueId, done: DoneError, verdict: Verdict, now: int)
    requires IsNumbered(s.work, s.started)
    ensures KeepsCounts(s, CompleteRun(cfg, s, id, done, verdict, now))
  {
    var t, u := Stopped(s, {id}), CompleteRun(cfg, s, id, done, verdict, now);
    if id !in s.work.running {
      SameRunningKeepsCounts(s, s);
    } else {
      StoppedKeepsCounts(s, {id});
      SameRunningKeepsCounts(t, u);
      KeepsCountsTransitive(s, t, u);
    }
  }

  /** Only agent events count tokens. */
  lemma StepKeepsCounts(cfg: Config, s: State, step: Step)
    requires IsNumbered(s.work, s.started) && !step.Event?
    ensures KeepsCounts(s, Next(cfg, s, step))
  {
    if step.RunRetryPass? {
      RetryPassKeepsCounts(cfg, s, step.byId, step.now, step.turns);
    } else if step.RunNewIssuesPass? {
      NewIssuesPassKeepsCounts(cfg, s, step.issues, step.open, step.turns, 0);
    } else if step.Complete? {
      CompleteKeepsCounts(cfg, s, step.id, step.done, step.verdict, step.now);
    } else if step.Reconcile? {
      StoppedKeepsCounts(s, step.dropped);
    } else if step.Stop? || step.Shutdown? {
      StoppedKeepsCounts(s, if step.Stop? then {step.id} else s.work.running.Keys);
    }
  }

  // ---- the ledger -------------------------------------------------------------------------

  /** Step `i` is an event for the run with this serial number, delivered while the run is managed. */
  predicate Reports(run: Run, i: nat, serial: nat)
    requires i < |run.steps| && i < |run.states|
  {
    && run.steps[i].Event? && run.steps[i].id in run.states[i].work.running
    && run.states[i].work.running[run.steps[i].id].serial == serial
  }

  function Reading(step: Step, counter: Counter): int
    requires step.Event?
  {
    if counter == TokensIn then step.tokensIn else step.tokensOut
  }

  /** The greatest count reported for a run by the first `n` steps while it was managed, at least 0. */
  function Greatest(run: Run, serial: nat, n: nat, counter: Counter): int
    requires n <= |run.steps| && n <= |run.states|
  {
    if n == 0 then 0
    else
      var before := Greatest(run, serial, n - 1, counter);
      if Reports(run, n - 1, serial) then Backoff.Max(before, Reading(run.steps[n - 1], counter)) else before
  }

  /** The sum of those over the runs with serial numbers below `m`. */
  function Sum(run: Run, m: nat, n: nat, counter: Counter): int
    requires n <= |run.steps| && n <= |run.states|
  {
    if m == 0 then 0 else Sum(run, m - 1, n, counter) + Greatest(run, m - 1, n, counter)
  }

  /** The counts in the state agree with the ledger of what was reported. */
  ghost predicate Agrees(run: Run, n: nat, counter: Counter)
    requires run.IsValid() && n <= |run.steps|
  {
    var s := run.states[n];
    && IsNumbered(s.work, s.started)
    && (forall id :: id in s.work.running ==>
          Count(s.work.running[id], counter) == Greatest(run, s.work.running[id].serial, n, counter))
    && (forall serial: nat :: serial >= s.started ==> Greatest(run, serial, n, counter) == 0)
  }

  lemma {:induction false} SumUnchanged(run: Run, m: nat, n: nat, counter: Counter)
    requires n < |run.steps| && n < |run.states| && forall serial: nat :: serial < m ==> !Reports(run, n, serial)
    ensures Sum(run, m, n + 1, counter) == Sum(run, m, n, counter)
  {
    if m > 0 {
      SumUnchanged(run, m - 1, n, counter);
    }
  }

  lemma {:induction false} SumOfNewRuns(run: Run, from: nat, to: nat, n: nat, counter: Counter)
    requires n <= |run.steps| && n <= |run.states| && from <= to
    requires forall serial: nat :: serial >= from ==> Greatest(run, serial, n, counter) == 0
    ensures Sum(run, to, n, counter) == Sum(run, from, n, counter)
  {
    if from < to {
      SumOfNewRuns(run, from, to - 1, n, counter);
    }
  }

  lemma {:induction false} SumAfterReport(run: Run, m: nat, n: nat, counter: Counter, serial: nat)
    requires n < |run.steps| && n < |run.states| && serial < m && Reports(run, n, serial)
    ensures Sum(run, m, n + 1, counter) ==
            Sum(run, m, n, counter) + Greatest(run, serial, n + 1, counter) - Greatest(run, serial, n, counter)
  {
    if serial == m - 1 {
      SumUnchanged(run, m - 1, n, counter);
    } else {
      SumAfterReport(run, m - 1, n, counter, serial);
    }
  }

  lemma EventAgrees(run: Run, n: nat, counter: Counter)
    requires run.IsValid() && n < |run.steps| && run.steps[n].Event? && Agrees(run, n, counter)
    ensures Agrees(run, n + 1, counter)
    ensures Total(run.states[n + 1], counter) - Sum(run, run.states[n + 1].started, n + 1, counter)
            == Total(run.states[n], counter) - Sum(run, run.states[n].started, n, counter)
  {
    var s, id := run.states[n], run.steps[n].id;
    if id in s.work.running {
      SumAfterReport(run, s.started, n, counter, s.work.running[id].serial);
    } else {
      SumUnchanged(run, s.started, n, counter);
    }
    var t := run.states[n + 1];
    assert run.IsStepAt(n);
    assert t == AgentEvent(s, id, run.steps[n].kind, run.steps[n].tokensIn, run.steps[n].tokensOut, run.steps[n].error);
    forall other | other in t.work.running
      ensures Count(t.work.running[other], counter) == Greatest(run, t.work.running[other].serial, n + 1, counter)
    {
      assert Count(s.work.running[other], counter) == Greatest(run, s.work.running[other].serial, n, counter);
    }
    var m := n + 1;
    forall serial: nat | serial >= t.started ensures Greatest(run, serial, m, counter) == 0 {
      assert Greatest(run, serial, n, counter) == 0;
    }
  }

  lemma OtherStepAgrees(run: Run, n: nat, counter: Counter)
    requires run.IsValid() && n < |run.steps| && !run.steps[n].Event? && Agrees(run, n, counter)
    ensures Agrees(run, n + 1, counter)
    ensures Total(run.states[n + 1], counter) - Sum(run, run.states[n + 1].started, n + 1, counter)
            == Total(run.states[n], counter) - Sum(run, run.states[n].started, n, counter)
  {
    assert run.IsStepAt(n);
    StepKeepsCounts(run.cfg, run.states[n], run.steps[n]);
    LedgerKept(run, n, counter);
    var s, t := run.states[n], run.states[n + 1];
    SumUnchanged(run, t.started, n, counter);
    SumOfNewRuns(run, s.started, t.started, n, counter);
  }

  lemma LedgerKept(run: Run, n: nat, counter: Counter)
    requires run.IsValid() && n < |run.steps| && !run.steps[n].Event? && Agrees(run, n, counter)
    requires KeepsCounts(run.states[n], run.states[n + 1])
    ensures Agrees(run, n + 1, counter)
  {
    var t, m := run.states[n + 1], n + 1;
    assert forall serial: nat :: Greatest(run, serial, m, counter) == Greatest(run, serial, n, counter);
    forall id | id in t.work.running
      ensures Count(t.work.running[id], counter) == Greatest(run, t.work.running[id].serial, m, counter)
    {
      assert Greatest(run, t.work.running[id].serial, m, counter) == Greatest(run, t.work.running[id].serial, n, counter);
    }
  }

  /** Token conservation: at every point of every run, each token total equals the sum, over every
      agent run ever started, of the greatest count reported while that run was managed. */
  lemma {:induction false} TokensAreConserved(run: Run, n: nat, counter: Counter)
    requires run.IsValid() && n <= |run.steps|
    ensures Agrees(run, n, counter)
    ensures Total(run.states[n], counter) == Sum(run, run.states[n].started, n, counter)
  {
    if n > 0 {
      TokensAreConserved(run, n - 1, counter);
      if run.steps[n - 1].Event? {
        EventAgrees(run, n - 1, counter);
      } else {
        OtherStepAgrees(run, n - 1, counter);
      }
    }
  }
}
