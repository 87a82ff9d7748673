/** What every reachable orchestrator state satisfies, and what a retry pass conserves
    (internal/orchestrator/orchestrator.go:268-386, 542-683, 857-869;
    internal/orchestrator/orchestrator_runtime.go:27-208, 284-447, 514-559, 638-663). */
module OrchestratorRuns {
  import opened Text
  import opened OrchestratorModel
  import Backoff

  ghost predicate AtMostOnce(entries: seq<BackoffEntry>) {
    forall i, j :: 0 <= i < j < |entries| ==> entries[i].issue != entries[j].issue
  }

  /** The eviction order lists the cached issues, each once, and the cache is within its bound. */
  ghost predicate CacheIsSound(c: IssueCache) {
    KeyedById(c.issues) && ListsOnce(c.order, c.issues.Keys) && |c.issues| <= MAX_ISSUE_CACHE_SIZE
  }

  ghost predicate KeyedById(issues: map<IssueId, Issue>) {
    forall id :: id in issues ==> issues[id].id == id
  }

  ghost predicate ListsOnce(order: seq<IssueId>, ids: set<IssueId>) {
    && (forall id :: id in order <==> id in ids)
    && (forall i, j :: 0 <= i < j < |order| ==> order[i] != order[j])
  }

  /** A managed run has failed, or has no error and is waiting for its first event or streaming. */
  predicate IsFiled(entry: RunEntry) {
    || IsFailure(entry.phase)
    || (entry.error == "" && (entry.phase == StreamingTurn || (entry.phase == InitializingSession && entry.lastEvent == "")))
  }

  /** Running, queued and paused issues are pairwise disjoint, and every entry is filed under its issue. */
  ghost predicate IsPartition(w: Work) {
    && AtMostOnce(w.backoff)
    && !IsQueued(w.backoff, "")
    && (forall id :: id in w.running ==>
          id != "" && id !in w.paused && !IsQueued(w.backoff, id) && w.running[id].issue.id == id && IsFiled(w.running[id]))
    && (forall id :: id in w.paused ==> !IsQueued(w.backoff, id))
  }

  ghost predicate WithinLimit(cfg: Config, w: Work) {
    |w.running| <= Backoff.Max(cfg.maxConcurrency, 0)
  }

  ghost predicate Sound(cfg: Config, s: State) {
    IsPartition(s.work) && WithinLimit(cfg, s.work) && s.statsRunning == |s.work.running| && CacheIsSound(s.cache)
  }

  // ---- the queue --------------------------------------------------------------------------

  /** An upsert leaves exactly one entry for its issue, the new one, and every other issue's alone. */
  lemma {:induction false} UpsertReplaces(entries: seq<BackoffEntry>, next: BackoffEntry)
    requires AtMostOnce(entries)
    ensures AtMostOnce(Upserted(entries, next))
    ensures forall e :: e in Upserted(entries, next) <==> e == next || (e in entries && e.issue != next.issue)
  {
    if entries != [] {
      assert entries == [entries[0]] + entries[1..];
      if entries[0].issue != next.issue {
        UpsertReplaces(entries[1..], next);
        forall k | 0 <= k < |Upserted(entries[1..], next)|
          ensures Upserted(entries[1..], next)[k].issue != entries[0].issue
        {
          assert Upserted(entries[1..], next)[k] in Upserted(entries[1..], next);
        }
      }
    }
  }

  lemma QueuedIffEntry(entries: seq<BackoffEntry>, id: IssueId)
    ensures IsQueued(entries, id) <==> exists e :: e in entries && e.issue == id
  {
    if IsQueued(entries, id) {
      var k :| 0 <= k < |entries| && entries[k].issue == id;
      assert entries[k] in entries;
    }
  }

  lemma {:induction false} DueSplits(entries: seq<BackoffEntry>, now: int)
    requires AtMostOnce(entries)
    ensures AtMostOnce(Due(entries, now)) && AtMostOnce(NotDue(entries, now))
    ensures forall e :: e in entries <==> e in Due(entries, now) || e in NotDue(entries, now)
    ensures forall e, f :: e in Due(entries, now) && f in NotDue(entries, now) ==> e.issue != f.issue
  {
    if entries != [] {
      var init, last := entries[..|entries| - 1], entries[|entries| - 1];
      assert entries == init + [last];
      DueSplits(init, now);
      assert forall e :: e in init ==> e.issue != last.issue;
    }
  }

  // ---- the cache --------------------------------------------------------------------------

  lemma EvictOldest(order: seq<IssueId>, ids: set<IssueId>, id: IssueId)
    requires ListsOnce(order, ids) && order != [] && id !in ids
    ensures order[0] in ids && ListsOnce(order[1..] + [id], ids - {order[0]} + {id})
  {
    assert order == [order[0]] + order[1..];
    assert order[0] in order;
  }

  lemma AppendNewest(order: seq<IssueId>, ids: set<IssueId>, id: IssueId)
    requires ListsOnce(order, ids) && id !in ids
    ensures ListsOnce(order + [id], ids + {id})
  {
  }

  lemma EvictionKeepsSize(cache: map<IssueId, Issue>, oldest: IssueId, issue: Issue, next: map<IssueId, Issue>)
    requires KeyedById(cache) && oldest in cache && issue.id !in cache
    requires next == (cache - {oldest})[issue.id := issue]
    ensures KeyedById(next) && next.Keys == cache.Keys - {oldest} + {issue.id} && |next| == |cache|
  {
    assert next.Keys == cache.Keys - {oldest} + {issue.id};
    assert |next.Keys| == |cache.Keys|;
  }

  lemma AppendingGrows(cache: map<IssueId, Issue>, issue: Issue, next: map<IssueId, Issue>)
    requires KeyedById(cache) && issue.id !in cache && next == cache[issue.id := issue]
    ensures KeyedById(next) && next.Keys == cache.Keys + {issue.id} && |next| == |cache| + 1
  {
    assert next.Keys == cache.Keys + {issue.id};
    assert |next.Keys| == |cache.Keys| + 1;
  }

  /** Caching an issue keeps the cache bounded, consistent and first-in first-out. */
  lemma CachedKeepsSound(c: IssueCache, issue: Issue)
    requires CacheIsSound(c)
    ensures CacheIsSound(Cached(c, issue))
    ensures issue.id in Cached(c, issue).issues && Cached(c, issue).issues[issue.id] == issue
  {
    if issue.id in c.issues {
      assert Cached(c, issue).issues.Keys == c.issues.Keys;
    } else if |c.issues| >= MAX_ISSUE_CACHE_SIZE {
      var some :| some in c.issues.Keys;
      assert some in c.order;
      EvictOldest(c.order, c.issues.Keys, issue.id);
      EvictionKeepsSize(c.issues, c.order[0], issue, Cached(c, issue).issues);
    } else {
      AppendNewest(c.order, c.issues.Keys, issue.id);
      AppendingGrows(c.issues, issue, Cached(c, issue).issues);
    }
  }

  lemma {:induction false} CacheAllKeepsSound(c: IssueCache, issues: seq<Issue>)
    requires CacheIsSound(c)
    ensures CacheIsSound(CacheAll(c, issues))
  {
    if issues != [] {
      CacheAllKeepsSound(c, issues[..|issues| - 1]);
      CachedKeepsSound(CacheAll(c, issues[..|issues| - 1]), issues[|issues| - 1]);
    }
  }

  // ---- one issue at a time ----------------------------------------------------------------

  /** From `v` to `w`, nothing changed for any issue but `id`, except that runs in `stops` may be gone. */
  ghost predicate OnlyTouches(v: Work, w: Work, id: IssueId, stops: set<IssueId>) {
    && w.paused == v.paused
    && (forall e :: e in v.backoff && e.issue != id ==> e in w.backoff)
    && (forall e :: e in w.backoff && e.issue != id ==> e in v.backoff)
    && (forall other :: other in w.running && other != id ==> other in v.running && w.running[other] == v.running[other])
    && (forall other :: other in v.running && other != id && other !in stops ==> other in w.running)
  }

  /** Where a queue entry may end up after it was due: running as the same attempt, or queued as the
      same attempt or the next one. */
  ghost predicate Landed(w: Work, id: IssueId, attempt: int) {
    || (id in w.running && w.running[id].attempt == attempt)
    || (exists q :: q in w.backoff && q.issue == id && attempt <= q.attempt <= attempt + 1)
  }

  /** What has become of a due entry: queued as the same attempt or the next one if its turn did not start
      it, running as the same attempt if it did, and gone if that run was stopped. */
  ghost predicate Fate(w: Work, e: BackoffEntry, launched: bool, stopped: bool) {
    if !launched then exists q :: q in w.backoff && q.issue == e.issue && e.attempt <= q.attempt <= e.attempt + 1
    else if !stopped then e.issue in w.running && w.running[e.issue].attempt == e.attempt
    else !IsManaged(w, e.issue)
  }

  lemma {:induction false} Subset(a: set<IssueId>, b: set<IssueId>)
    requires a <= b
    ensures |a| <= |b|
  {
    if x :| x in a {
      Subset(a - {x}, b - {x});
    }
  }

  lemma RemovalKeepsSound(cfg: Config, w: Work, ids: set<IssueId>)
    requires IsPartition(w) && WithinLimit(cfg, w)
    ensures IsPartition(Removed(w, ids)) && WithinLimit(cfg, Removed(w, ids))
  {
    assert Removed(w, ids).running.Keys == w.running.Keys - ids;
    Subset(w.running.Keys - ids, w.running.Keys);
  }

  lemma QueueingKeepsSound(w: Work, entry: BackoffEntry)
    requires IsPartition(w) && entry.issue != "" && entry.issue !in w.running && entry.issue !in w.paused
    ensures IsPartition(Enqueued(w, entry)) && OnlyTouches(w, Enqueued(w, entry), entry.issue, {})
    ensures entry in Enqueued(w, entry).backoff
  {
    var next := Upserted(w.backoff, entry);
    UpsertReplaces(w.backoff, entry);
    forall id | IsQueued(next, id) ensures id == entry.issue || IsQueued(w.backoff, id) {
      QueuedIffEntry(next, id);
      QueuedIffEntry(w.backoff, id);
    }
  }

  lemma RequeueKeepsSound(w: Work, entry: BackoffEntry)
    requires IsPartition(w) && entry.issue != "" && !IsManaged(w, entry.issue)
    ensures IsPartition(Requeued(w, entry)) && OnlyTouches(w, Requeued(w, entry), entry.issue, {})
    ensures entry in Requeued(w, entry).backoff
  {
    var next := w.backoff + [entry];
    assert next[|w.backoff|] == entry;
    forall id | IsQueued(next, id) ensures id == entry.issue || IsQueued(w.backoff, id) {
    }
  }

  lemma LaunchKeepsSound(cfg: Config, w: Work, serial: nat, issue: Issue, attempt: int)
    requires IsPartition(w) && CanDispatch(cfg, w) && issue.id != "" && !IsManaged(w, issue.id)
    ensures IsPartition(Launched(w, serial, issue, attempt)) && WithinLimit(cfg, Launched(w, serial, issue, attempt))
    ensures OnlyTouches(w, Launched(w, serial, issue, attempt), issue.id, {})
  {
    LaunchIsWithinLimit(cfg, w, serial, issue, attempt);
  }

  lemma LaunchIsWithinLimit(cfg: Config, w: Work, serial: nat, issue: Issue, attempt: int)
    requires CanDispatch(cfg, w) && issue.id !in w.running
    ensures WithinLimit(cfg, Launched(w, serial, issue, attempt))
  {
    assert Launched(w, serial, issue, attempt).running.Keys == w.running.Keys + {issue.id};
  }

  /** Dispatching an unmanaged issue keeps the state sound and disturbs no other issue; the issue
      itself ends up running or queued, and an issue without an id is ignored. */
  lemma DispatchKeepsSound(cfg: Config, s: State, issue: Issue, attempt: int, turn: Turn)
    requires Sound(cfg, s) && CanDispatch(cfg, s.work) && !IsManaged(s.work, issue.id)
    ensures var t := DispatchIssue(cfg, s, issue, attempt, turn);
            && Sound(cfg, t) && OnlyTouches(s.work, t.work, issue.id, {})
            && (issue.id != "" ==> Landed(t.work, issue.id, attempt))
  {
    if issue.id != "" {
      if turn.launch == ClaimFails || (issue.state != Unclaimed && issue.state != RetryQueued) {
        QueueingKeepsSound(s.work, ContinuationEntry(cfg, issue.id, attempt, turn.now));
      } else if turn.launch == StartFails {
        CachedKeepsSound(s.cache, issue);
        QueueingKeepsSound(s.work, RetryEntry(cfg, issue.id, attempt, turn.now));
      } else if turn.launch == Starts {
        CachedKeepsSound(s.cache, issue);
        LaunchKeepsSound(cfg, s.work, s.started, issue, attempt);
      } else {
        QueueingKeepsSound(s.work, ContinuationEntry(cfg, issue.id, attempt, turn.now));
      }
    }
  }

  lemma HandledKeepsSound(cfg: Config, s: State, entry: BackoffEntry, issues: map<IssueId, Issue>, turn: Turn)
    requires Sound(cfg, s) && KeyedById(issues) && entry.issue != "" && !IsManaged(s.work, entry.issue)
    ensures var t := Handled(cfg, s, entry, issues, turn);
            Sound(cfg, t) && OnlyTouches(s.work, t.work, entry.issue, {}) && Landed(t.work, entry.issue, entry.attempt)
  {
    if !CanDispatch(cfg, s.work) {
      RequeueKeepsSound(s.work, entry);
    } else if entry.issue in issues {
      DispatchKeepsSound(cfg, s, issues[entry.issue].(state := RetryQueued), entry.attempt, turn);
    } else if entry.issue in s.cache.issues {
      DispatchKeepsSound(cfg, s, s.cache.issues[entry.issue].(state := RetryQueued), entry.attempt, turn);
    } else {
      QueueingKeepsSound(s.work, ContinuationEntry(cfg, entry.issue, entry.attempt, turn.now));
    }
  }

  lemma HandleReadyKeepsSound(cfg: Config, s: State, entry: BackoffEntry, issues: map<IssueId, Issue>, turn: Turn)
    requires Sound(cfg, s) && KeyedById(issues) && entry.issue != "" && !IsManaged(s.work, entry.issue)
    ensures var t := HandleReady(cfg, s, entry, issues, turn);
            && Sound(cfg, t) && OnlyTouches(s.work, t.work, entry.issue, turn.stops) && t.work.running.Keys !! turn.stops
            && Fate(t.work, entry, entry.issue in Handled(cfg, s, entry, issues, turn).work.running, entry.issue in turn.stops)
  {
    HandledKeepsSound(cfg, s, entry, issues, turn);
    StopsAfter(cfg, s.work, Handled(cfg, s, entry, issues, turn).work, entry, turn.stops);
  }

  lemma StopsAfter(cfg: Config, v: Work, w: Work, entry: BackoffEntry, stops: set<IssueId>)
    requires IsPartition(w) && WithinLimit(cfg, w)
    requires OnlyTouches(v, w, entry.issue, {}) && Landed(w, entry.issue, entry.attempt)
    ensures IsPartition(Removed(w, stops)) && WithinLimit(cfg, Removed(w, stops))
    ensures OnlyTouches(v, Removed(w, stops), entry.issue, stops) && Removed(w, stops).running.Keys !! stops
    ensures Fate(Removed(w, stops), entry, entry.issue in w.running, entry.issue in stops)
  {
    RemovalKeepsSound(cfg, w, stops);
    QueuedIffEntry(w.backoff, entry.issue);
  }

  // ---- the passes -------------------------------------------------------------------------

  /** The entries taken off the queue are unmanaged while they wait their turn. */
  ghost predicate IsInFlight(w: Work, ready: seq<BackoffEntry>) {
    AtMostOnce(ready) && forall k :: 0 <= k < |ready| ==> ready[k].issue != "" && !IsManaged(w, ready[k].issue)
  }

  /** The issue is stopped in a turn from k on and before n. */
  ghost predicate IsStoppedFrom(turns: nat -> Turn, k: nat, n: nat, id: IssueId) {
    exists j: nat :: k <= j < n && id in turns(j).stops
  }

  /** Turn k of handling `ready` starts a run. */
  predicate IsLaunchedAt(
    cfg: Config, s: State, ready: seq<BackoffEntry>, issues: map<IssueId, Issue>, turns: nat -> Turn, k: nat)
    requires k < |ready|
  {
    ready[k].issue in Handled(cfg, HandleAllReady(cfg, s, ready[..k], issues, turns), ready[k], issues, turns(k)).work.running
  }

  /** A turn starts a run exactly when there is a free slot, the launch succeeds and the issue is known. */
  lemma HandledLaunchesIff(cfg: Config, s: State, entry: BackoffEntry, issues: map<IssueId, Issue>, turn: Turn)
    requires Sound(cfg, s) && KeyedById(issues) && entry.issue != "" && !IsManaged(s.work, entry.issue)
    ensures entry.issue in Handled(cfg, s, entry, issues, turn).work.running <==>
            && CanDispatch(cfg, s.work) && turn.launch == Starts
            && (entry.issue in issues || entry.issue in s.cache.issues)
  {
  }

  lemma LaunchedAtIff(
    cfg: Config, s: State, ready: seq<BackoffEntry>, issues: map<IssueId, Issue>, turns: nat -> Turn, k: nat)
    requires Sound(cfg, s) && KeyedById(issues) && IsInFlight(s.work, ready) && k < |ready|
    ensures var mid := HandleAllReady(cfg, s, ready[..k], issues, turns);
            IsLaunchedAt(cfg, s, ready, issues, turns, k) <==>
              && CanDispatch(cfg, mid.work) && turns(k).launch == Starts
              && (ready[k].issue in issues || ready[k].issue in mid.cache.issues)
  {
    var mid := HandleAllReady(cfg, s, ready[..k], issues, turns);
    HandleAllReadyConserves(cfg, s, ready[..k], issues, turns);
    NextIsUnmanaged(s.work, mid.work, ready, k);
    HandledLaunchesIff(cfg, mid, ready[k], issues, turns(k));
  }

  /** What handling `ready` has done to the work so far. */
  ghost predicate Progressed(v: Work, w: Work, ready: seq<BackoffEntry>) {
    && w.paused == v.paused
    && (forall e :: e in v.backoff ==> e in w.backoff)
    && (forall id :: IsManaged(w, id) ==> IsManaged(v, id) || IsQueued(ready, id))
  }

  lemma TouchingManagesNoMore(v: Work, w: Work, id: IssueId, stops: set<IssueId>, other: IssueId)
    requires OnlyTouches(v, w, id, stops) && other != id && IsManaged(w, other)
    ensures IsManaged(v, other)
  {
    QueuedIffEntry(w.backoff, other);
    QueuedIffEntry(v.backoff, other);
  }

  lemma TouchingKeepsFate(
    v: Work, w: Work, id: IssueId, stops: set<IssueId>, e: BackoffEntry, launched: bool, stopped: bool, stoppedNow: bool)
    requires IsPartition(v) && OnlyTouches(v, w, id, stops) && w.running.Keys !! stops
    requires e.issue != id && Fate(v, e, launched, stopped) && stoppedNow == (stopped || e.issue in stops)
    ensures Fate(w, e, launched, stoppedNow)
  {
    if launched && stoppedNow && IsManaged(w, e.issue) {
      TouchingManagesNoMore(v, w, id, stops, e.issue);
      QueuedIffEntry(w.backoff, e.issue);
      QueuedIffEntry(v.backoff, e.issue);
    }
  }

  lemma {:induction false} HandleAllReadyConserves(
    cfg: Config, s: State, ready: seq<BackoffEntry>, issues: map<IssueId, Issue>, turns: nat -> Turn)
    requires Sound(cfg, s) && KeyedById(issues) && IsInFlight(s.work, ready)
    ensures Sound(cfg, HandleAllReady(cfg, s, ready, issues, turns))
    ensures Progressed(s.work, HandleAllReady(cfg, s, ready, issues, turns).work, ready)
  {
    if ready != [] {
      var n := |ready| - 1;
      var earlier, entry := ready[..n], ready[n];
      HandleAllReadyConserves(cfg, s, earlier, issues, turns);
      var mid := HandleAllReady(cfg, s, earlier, issues, turns);
      NextIsUnmanaged(s.work, mid.work, ready, n);
      HandleReadyKeepsSound(cfg, mid, entry, issues, turns(n));
      OneMoreHandled(s.work, mid.work, HandleReady(cfg, mid, entry, issues, turns(n)).work, ready, turns(n).stops);
    }
  }

  lemma NextIsUnmanaged(v: Work, w: Work, ready: seq<BackoffEntry>, n: nat)
    requires n < |ready| && IsInFlight(v, ready) && Progressed(v, w, ready[..n])
    ensures !IsManaged(w, ready[n].issue)
  {
    assert !IsManaged(v, ready[n].issue) && !IsQueued(ready[..n], ready[n].issue);
  }

  lemma OneMoreHandled(v: Work, mid: Work, w: Work, ready: seq<BackoffEntry>, stops: set<IssueId>)
    requires ready != [] && IsInFlight(v, ready)
    requires Progressed(v, mid, ready[..|ready| - 1]) && OnlyTouches(mid, w, ready[|ready| - 1].issue, stops)
    ensures Progressed(v, w, ready)
  {
    var n := |ready| - 1;
    var id := ready[n].issue;
    forall e | e in v.backoff ensures e in w.backoff {
      QueuedIffEntry(v.backoff, e.issue);
    }
    forall other | IsManaged(w, other) ensures IsManaged(v, other) || IsQueued(ready, other) {
      if other != id {
        TouchingManagesNoMore(mid, w, id, stops, other);
        if IsQueued(ready[..n], other) {
          var k :| 0 <= k < n && ready[..n][k].issue == other;
          assert ready[k].issue == other;
        }
      } else {
        assert ready[n].issue == other;
      }
    }
  }

  /** One more turn, and what it means for the fate of an entry whose turn is over. */
  lemma OneMoreFate(
    cfg: Config, mid: State, entry: BackoffEntry, issues: map<IssueId, Issue>, turn: Turn, e: BackoffEntry,
    launched: bool, stopped: bool, stoppedNow: bool)
    requires Sound(cfg, mid) && KeyedById(issues) && entry.issue != "" && !IsManaged(mid.work, entry.issue)
    requires e.issue != entry.issue && Fate(mid.work, e, launched, stopped)
    requires stoppedNow == (stopped || e.issue in turn.stops)
    ensures Fate(HandleReady(cfg, mid, entry, issues, turn).work, e, launched, stoppedNow)
  {
    HandleReadyKeepsSound(cfg, mid, entry, issues, turn);
    TouchingKeepsFate(
      mid.work, HandleReady(cfg, mid, entry, issues, turn).work, entry.issue, turn.stops, e, launched, stopped, stoppedNow);
  }

  /** What becomes of each due entry, exactly. */
  lemma {:induction false} EntryFate(
    cfg: Config, s: State, ready: seq<BackoffEntry>, issues: map<IssueId, Issue>, turns: nat -> Turn, k: nat,
    launched: bool, stopped: bool)
    requires Sound(cfg, s) && KeyedById(issues) && IsInFlight(s.work, ready) && k < |ready|
    requires launched == IsLaunchedAt(cfg, s, ready, issues, turns, k)
    requires stopped == IsStoppedFrom(turns, k, |ready|, ready[k].issue)
    ensures Fate(HandleAllReady(cfg, s, ready, issues, turns).work, ready[k], launched, stopped)
  {
    var n := |ready| - 1;
    var mid := HandleAllReady(cfg, s, ready[..n], issues, turns);
    HandleAllReadyConserves(cfg, s, ready[..n], issues, turns);
    NextIsUnmanaged(s.work, mid.work, ready, n);
    StoppedUpTo(turns, k, n, ready[k].issue);
    if k < n {
      var before := IsStoppedFrom(turns, k, n, ready[k].issue);
      SameLaunch(cfg, s, ready, issues, turns, k, n);
      EntryFate(cfg, s, ready[..n], issues, turns, k, launched, before);
      OneMoreFate(cfg, mid, ready[n], issues, turns(n), ready[k], launched, before, stopped);
    } else {
      HandleReadyKeepsSound(cfg, mid, ready[n], issues, turns(n));
    }
  }

  lemma SameLaunch(
    cfg: Config, s: State, ready: seq<BackoffEntry>, issues: map<IssueId, Issue>, turns: nat -> Turn, k: nat, n: nat)
    requires k < n <= |ready|
    ensures IsLaunchedAt(cfg, s, ready[..n], issues, turns, k) == IsLaunchedAt(cfg, s, ready, issues, turns, k)
  {
    assert ready[..n][..k] == ready[..k];
  }

  lemma StoppedUpTo(turns: nat -> Turn, k: nat, n: nat, id: IssueId)
    requires k <= n
    ensures IsStoppedFrom(turns, k, n + 1, id) <==> IsStoppedFrom(turns, k, n, id) || id in turns(n).stops
    ensures !IsStoppedFrom(turns, n, n, id)
  {
  }

  /** Taking the due entries off the queue leaves them in flight and everything else sound. */
  lemma DueAreInFlight(w: Work, now: int)
    requires IsPartition(w)
    ensures IsPartition(w.(backoff := NotDue(w.backoff, now)))
    ensures IsInFlight(w.(backoff := NotDue(w.backoff, now)), Due(w.backoff, now))
  {
    var due, rest := Due(w.backoff, now), NotDue(w.backoff, now);
    DueSplits(w.backoff, now);
    forall id | IsQueued(rest, id) ensures IsQueued(w.backoff, id) {
      QueuedIffEntry(rest, id);
      QueuedIffEntry(w.backoff, id);
    }
    forall k | 0 <= k < |due| ensures due[k].issue != "" && !IsManaged(w.(backoff := rest), due[k].issue) {
      assert due[k] in due;
      QueuedIffEntry(w.backoff, due[k].issue);
      QueuedIffEntry(rest, due[k].issue);
    }
  }

  /** The state in which a retry pass begins to handle the due entries it took off the queue. */
  function PassStart(s: State, now: int): State {
    s.(work := s.work.(backoff := NotDue(s.work.backoff, now)))
  }

  /** Retry conservation, exactly: after a retry pass, under any mix of claim, workspace, prompt and start
      failures, the entries that were not due are still queued as they were, and each due entry has the
      fate that its own turn and the stops from then on decide.  No issue becomes managed by the pass that
      was not before. */
  lemma {:induction false} RetryPassConserves(cfg: Config, s: State, issues: map<IssueId, Issue>, now: int, turns: nat -> Turn)
    requires Sound(cfg, s) && KeyedById(issues)
    ensures var t, due := RetryPass(cfg, s, issues, now, turns), Due(s.work.backoff, now);
            && Sound(cfg, t) && t.work.paused == s.work.paused
            && (forall e :: e in NotDue(s.work.backoff, now) ==> e in t.work.backoff)
            && (forall id :: IsManaged(t.work, id) ==> IsManaged(s.work, id))
            && (!CanDispatch(cfg, s.work) ==> t == s)
            && (CanDispatch(cfg, s.work) ==>
                  forall k: nat :: k < |due| ==>
                    Fate(t.work, due[k], IsLaunchedAt(cfg, PassStart(s, now), due, issues, turns, k),
                         IsStoppedFrom(turns, k, |due|, due[k].issue)))
  {
    DueSplits(s.work.backoff, now);
    if CanDispatch(cfg, s.work) {
      var due, start := Due(s.work.backoff, now), PassStart(s, now);
      DueAreInFlight(s.work, now);
      HandleAllReadyConserves(cfg, start, due, issues, turns);
      PassManagesNoMore(s.work, RetryPass(cfg, s, issues, now, turns).work, now);
      forall k: nat | k < |due|
        ensures Fate(RetryPass(cfg, s, issues, now, turns).work, due[k], IsLaunchedAt(cfg, start, due, issues, turns, k),
                     IsStoppedFrom(turns, k, |due|, due[k].issue))
      {
        EntryFate(cfg, start, due, issues, turns, k, IsLaunchedAt(cfg, start, due, issues, turns, k),
                  IsStoppedFrom(turns, k, |due|, due[k].issue));
      }
    }
  }

  lemma PassManagesNoMore(v: Work, w: Work, now: int)
    requires IsPartition(v) && Progressed(v.(backoff := NotDue(v.backoff, now)), w, Due(v.backoff, now))
    ensures forall id :: IsManaged(w, id) ==> IsManaged(v, id)
  {
    DueSplits(v.backoff, now);
    forall id | IsManaged(w, id) ensures IsManaged(v, id) {
      QueuedIffEntry(v.backoff, id);
      QueuedIffEntry(NotDue(v.backoff, now), id);
      QueuedIffEntry(Due(v.backoff, now), id);
    }
  }

  /** In particular an issue that was queued and that no stop names from its own turn on is running as the
      same attempt, or queued as the same attempt or the next one. */
  lemma RetryPassKeepsUnstopped(cfg: Config, s: State, issues: map<IssueId, Issue>, now: int, turns: nat -> Turn, e: BackoffEntry)
    requires Sound(cfg, s) && KeyedById(issues) && e in s.work.backoff
    requires forall k: nat ::
               k < |Due(s.work.backoff, now)| && Due(s.work.backoff, now)[k] == e ==>
                 !IsStoppedFrom(turns, k, |Due(s.work.backoff, now)|, e.issue)
    ensures Landed(RetryPass(cfg, s, issues, now, turns).work, e.issue, e.attempt)
  {
    DueSplits(s.work.backoff, now);
    if CanDispatch(cfg, s.work) {
      var due, start := Due(s.work.backoff, now), PassStart(s, now);
      DueAreInFlight(s.work, now);
      if e in NotDue(s.work.backoff, now) {
        HandleAllReadyConserves(cfg, start, due, issues, turns);
        assert e in RetryPass(cfg, s, issues, now, turns).work.backoff;
      } else {
        var k: nat :| k < |due| && due[k] == e;
        DueEntryLands(cfg, start, due, issues, turns, k);
      }
    }
  }

  lemma DueEntryLands(
    cfg: Config, start: State, due: seq<BackoffEntry>, issues: map<IssueId, Issue>, turns: nat -> Turn, k: nat)
    requires Sound(cfg, start) && KeyedById(issues) && IsInFlight(start.work, due) && k < |due|
    requires !IsStoppedFrom(turns, k, |due|, due[k].issue)
    ensures Landed(HandleAllReady(cfg, start, due, issues, turns).work, due[k].issue, due[k].attempt)
  {
    var launched := IsLaunchedAt(cfg, start, due, issues, turns, k);
    EntryFate(cfg, start, due, issues, turns, k, launched, false);
    FateLands(HandleAllReady(cfg, start, due, issues, turns).work, due[k], launched);
  }

  lemma FateLands(w: Work, e: BackoffEntry, launched: bool)
    requires Fate(w, e, launched, false)
    ensures Landed(w, e.issue, e.attempt)
  {
  }

  /** One issue of the new-issues pass. */
  lemma NewIssueKeepsSound(cfg: Config, s: State, issue: Issue, turn: Turn)
    requires Sound(cfg, s) && CanDispatch(cfg, s.work) && !IsManaged(s.work, issue.id)
    ensures var t := Stopped(DispatchIssue(cfg, s, issue, 1, turn), turn.stops);
            Sound(cfg, t) && t.work.paused == s.work.paused
  {
    DispatchKeepsSound(cfg, s, issue, 1, turn);
    RemovalKeepsSound(cfg, DispatchIssue(cfg, s, issue, 1, turn).work, turn.stops);
  }

  lemma {:induction false} NewIssuesPassKeepsSound(
    cfg: Config, s: State, issues: seq<Issue>, open: set<string>, turns: nat -> Turn, k: nat)
    requires Sound(cfg, s) && k <= |issues|
    ensures var t := NewIssuesPass(cfg, s, issues, open, turns, k);
            Sound(cfg, t) && t.work.paused == s.work.paused
    decreases |issues| - k
  {
    if k < |issues| {
      if IsSkipped(issues[k], open, turns(k)) {
        NewIssuesPassKeepsSound(cfg, s, issues, open, turns, k + 1);
      } else if CanDispatch(cfg, s.work) {
        if IsManaged(s.work, issues[k].id) {
          NewIssuesPassKeepsSound(cfg, s, issues, open, turns, k + 1);
        } else {
          NewIssueKeepsSound(cfg, s, issues[k], turns(k));
          var t := Stopped(DispatchIssue(cfg, s, issues[k], 1, turns(k)), turns(k).stops);
          NewIssuesPassKeepsSound(cfg, t, issues, open, turns, k + 1);
        }
      }
    }
  }

  // ---- the other steps --------------------------------------------------------------------

  lemma AgentEventKeepsSound(cfg: Config, s: State, id: IssueId, kind: string, tokensIn: int, tokensOut: int, error: string)
    requires Sound(cfg, s)
    ensures var t := AgentEvent(s, id, kind, tokensIn, tokensOut, error); Sound(cfg, t) && t.work.paused == s.work.paused
  {
    if id in s.work.running {
      assert AgentEvent(s, id, kind, tokensIn, tokensOut, error).work.running.Keys == s.work.running.Keys;
    }
  }

  lemma ReconciledKeepsSound(cfg: Config, s: State, ids: set<IssueId>, phase: RunPhase, dropped: set<IssueId>)
    requires Sound(cfg, s) && phase in {TimedOut, Stalled}
    ensures var t := Reconciled(s, ids, phase, dropped); Sound(cfg, t) && t.work.paused == s.work.paused
  {
    var w := Removed(s.work, dropped);
    RemovalKeepsSound(cfg, s.work, dropped);
    assert Marked(w, ids, phase).running.Keys == w.running.Keys;
  }

  lemma PausingKeepsSound(w: Work, id: IssueId)
    requires IsPartition(w) && !IsManaged(w, id)
    ensures IsPartition(w.(paused := w.paused + {id}))
  {
  }

  lemma CompleteKeepsSound(cfg: Config, s: State, id: IssueId, done: DoneError, verdict: Verdict, now: int)
    requires Sound(cfg, s)
    ensures var t := CompleteRun(cfg, s, id, done, verdict, now);
            Sound(cfg, t) && s.work.paused <= t.work.paused
  {
    if id in s.work.running {
      var entry, w := s.work.running[id], Removed(s.work, {id});
      RemovalKeepsSound(cfg, s.work, {id});
      if FinalPhase(entry.phase, PhaseMessage(entry), done) != Succeeded {
        QueueingKeepsSound(w, RetryEntry(cfg, id, entry.attempt, now));
        CachedKeepsSound(s.cache, entry.issue);
      } else if !IsVerified(verdict) {
        PausingKeepsSound(w, id);
        CachedKeepsSound(s.cache, entry.issue.(state := IssueRunning));
      }
    }
  }

  ghost predicate IsWellFormed(step: Step) {
    (step.RunRetryPass? ==> KeyedById(step.byId)) && (step.Reconcile? ==> step.phase in {TimedOut, Stalled})
  }

  /** The inductive step: every section the event loop or a stopping goroutine runs keeps the state
      sound, and an issue once paused stays paused. */
  lemma StepKeepsSound(cfg: Config, s: State, step: Step, t: State)
    requires Sound(cfg, s) && IsStep(cfg, s, step, t)
    ensures Sound(cfg, t) && s.work.paused <= t.work.paused
  {
    if step.Poll? {
      CacheAllKeepsSound(s.cache, step.issues);
    } else if step.RunRetryPass? {
      RetryPassConserves(cfg, s, step.byId, step.now, step.turns);
    } else if step.RunNewIssuesPass? {
      NewIssuesPassKeepsSound(cfg, s, step.issues, step.open, step.turns, 0);
    } else {
      RunStepKeepsSound(cfg, s, step);
    }
  }

  lemma RunStepKeepsSound(cfg: Config, s: State, step: Step)
    requires Sound(cfg, s) && IsWellFormed(step) && !step.Poll? && !step.RunRetryPass? && !step.RunNewIssuesPass?
    ensures Sound(cfg, Next(cfg, s, step)) && s.work.paused <= Next(cfg, s, step).work.paused
  {
    if step.Event? {
      AgentEventKeepsSound(cfg, s, step.id, step.kind, step.tokensIn, step.tokensOut, step.error);
    } else if step.Complete? {
      CompleteKeepsSound(cfg, s, step.id, step.done, step.verdict, step.now);
    } else if step.Reconcile? {
      ReconciledKeepsSound(cfg, s, step.ids, step.phase, step.dropped);
    } else {
      StoppedKeepsSound(cfg, s, if step.Stop? then {step.id} else s.work.running.Keys);
    }
  }

  lemma StoppedKeepsSound(cfg: Config, s: State, ids: set<IssueId>)
    requires Sound(cfg, s)
    ensures Sound(cfg, Stopped(s, ids)) && Stopped(s, ids).work.paused == s.work.paused
  {
    RemovalKeepsSound(cfg, s.work, ids);
  }

  /** A run of the orchestrator: any sequence of steps, and the states they lead through. */
  datatype Run = Run(cfg: Config, steps: seq<Step>, states: seq<State>) {
    ghost predicate IsValid() {
      && |states| == |steps| + 1 && states[0] == INITIAL
      && forall i: nat {:trigger IsStepAt(i)} :: i < |steps| ==> IsStepAt(i)
    }

    ghost predicate IsStepAt(i: nat)
      requires i < |steps| && |states| == |steps| + 1
    {
      IsStep(cfg, states[i], steps[i], states[i + 1])
    }
  }

  ghost predicate IsStep(cfg: Config, s: State, step: Step, t: State) {
    IsWellFormed(step) && t == Next(cfg, s, step)
  }

  lemma InitiallySound(cfg: Config)
    ensures Sound(cfg, INITIAL)
  {
    assert INITIAL.cache.issues.Keys == {};
  }

  /** In every reachable state running, queued and paused issues are pairwise disjoint, the queue has
      at most one entry per issue, the running count is right and within the limit, and the issue
      cache is bounded and consistent. */
  lemma {:induction false} AlwaysSound(run: Run, i: nat)
    requires run.IsValid() && i <= |run.steps|
    ensures Sound(run.cfg, run.states[i])
  {
    if i == 0 {
      InitiallySound(run.cfg);
    } else {
      AlwaysSound(run, i - 1);
      assert run.IsStepAt(i - 1);
      StepKeepsSound(run.cfg, run.states[i - 1], run.steps[i - 1], run.states[i]);
    }
  }

  // ---- what others can observe inside a step ----------------------------------------------

  /** A state between two mutex-protected sections of a new-issues pass, or at one of its ends. */
  ghost predicate IsVisited(
    cfg: Config, s: State, issues: seq<Issue>, open: set<string>, turns: nat -> Turn, k: nat, t: State)
    requires k <= |issues|
    decreases |issues| - k
  {
    || t == s
    || (k < |issues|
        && if IsSkipped(issues[k], open, turns(k)) then IsVisited(cfg, s, issues, open, turns, k + 1, t)
           else if !CanDispatch(cfg, s.work) then false
           else if IsManaged(s.work, issues[k].id) then IsVisited(cfg, s, issues, open, turns, k + 1, t)
           else
             var dispatched := DispatchIssue(cfg, s, issues[k], 1, turns(k));
             t == dispatched || IsVisited(cfg, Stopped(dispatched, turns(k).stops), issues, open, turns, k + 1, t))
  }

  /** A state that another goroutine can observe during a step. */
  ghost predicate IsWithin(cfg: Config, s: State, step: Step, t: State) {
    match step
    case Poll(issues) => exists k :: 0 <= k <= |issues| && t == s.(cache := CacheAll(s.cache, issues[..k]))
    case RunRetryPass(byId, now, turns) =>
      var start, due := PassStart(s, now), Due(s.work.backoff, now);
      CanDispatch(cfg, s.work) && exists k: nat :: IsWithinPass(cfg, start, due, byId, turns, k, t)
    case RunNewIssuesPass(issues, open, turns) => IsVisited(cfg, s, issues, open, turns, 0, t)
    case Complete(id, _, _, _) => t == s || t == Stopped(s, {id}) || t == Next(cfg, s, step)
    case _ => t == s || t == Next(cfg, s, step)
  }

  /** After k due entries, or after the next one and before the stops that follow it. */
  ghost predicate IsWithinPass(
    cfg: Config, start: State, due: seq<BackoffEntry>, byId: map<IssueId, Issue>, turns: nat -> Turn, k: nat, t: State)
  {
    && k <= |due|
    && var mid := HandleAllReady(cfg, start, due[..k], byId, turns);
       t == mid || (k < |due| && t == Handled(cfg, mid, due[k], byId, turns(k)))
  }

  lemma WithinPassIsSound(
    cfg: Config, start: State, due: seq<BackoffEntry>, byId: map<IssueId, Issue>, turns: nat -> Turn, k: nat, t: State)
    requires Sound(cfg, start) && KeyedById(byId) && IsInFlight(start.work, due)
    requires IsWithinPass(cfg, start, due, byId, turns, k, t)
    ensures Sound(cfg, t)
  {
    HandleAllReadyConserves(cfg, start, due[..k], byId, turns);
    if k < |due| {
      var mid := HandleAllReady(cfg, start, due[..k], byId, turns);
      NextIsUnmanaged(start.work, mid.work, due, k);
      HandledKeepsSound(cfg, mid, due[k], byId, turns(k));
    }
  }

  lemma {:induction false} VisitedIsSound(
    cfg: Config, s: State, issues: seq<Issue>, open: set<string>, turns: nat -> Turn, k: nat, t: State)
    requires Sound(cfg, s) && k <= |issues| && IsVisited(cfg, s, issues, open, turns, k, t)
    ensures Sound(cfg, t)
    decreases |issues| - k
  {
    if t != s {
      if IsSkipped(issues[k], open, turns(k)) || IsManaged(s.work, issues[k].id) {
        VisitedIsSound(cfg, s, issues, open, turns, k + 1, t);
      } else {
        var dispatched := DispatchIssue(cfg, s, issues[k], 1, turns(k));
        DispatchKeepsSound(cfg, s, issues[k], 1, turns(k));
        if t != dispatched {
          NewIssueKeepsSound(cfg, s, issues[k], turns(k));
          VisitedIsSound(cfg, Stopped(dispatched, turns(k).stops), issues, open, turns, k + 1, t);
        }
      }
    }
  }

  lemma WithinRetryPassIsSound(cfg: Config, s: State, byId: map<IssueId, Issue>, now: int, turns: nat -> Turn, t: State)
    requires Sound(cfg, s) && KeyedById(byId) && IsWithin(cfg, s, RunRetryPass(byId, now, turns), t)
    ensures Sound(cfg, t)
  {
    var start, due := PassStart(s, now), Due(s.work.backoff, now);
    DueAreInFlight(s.work, now);
    var k: nat :| IsWithinPass(cfg, start, due, byId, turns, k, t);
    WithinPassIsSound(cfg, start, due, byId, turns, k, t);
  }

  lemma WithinPollIsSound(cfg: Config, s: State, issues: seq<Issue>, t: State)
    requires Sound(cfg, s) && IsWithin(cfg, s, Poll(issues), t)
    ensures Sound(cfg, t)
  {
    var k :| 0 <= k <= |issues| && t == s.(cache := CacheAll(s.cache, issues[..k]));
    CacheAllKeepsSound(s.cache, issues[..k]);
  }

  lemma WithinIsSound(cfg: Config, s: State, step: Step, t: State)
    requires Sound(cfg, s) && IsWellFormed(step) && IsWithin(cfg, s, step, t)
    ensures Sound(cfg, t)
  {
    if step.Poll? {
      WithinPollIsSound(cfg, s, step.issues, t);
    } else if step.RunRetryPass? {
      WithinRetryPassIsSound(cfg, s, step.byId, step.now, step.turns, t);
    } else if step.RunNewIssuesPass? {
      VisitedIsSound(cfg, s, step.issues, step.open, step.turns, 0, t);
    } else if t != s {
      RunStepKeepsSound(cfg, s, step);
      if step.Complete? {
        StoppedKeepsSound(cfg, s, {step.id});
      }
    }
  }

  /** The invariant also holds in every state that can be observed during a step, between two sections of a
      pass. */
  lemma SoundWithinSteps(run: Run, i: nat, t: State)
    requires run.IsValid() && i < |run.steps| && IsWithin(run.cfg, run.states[i], run.steps[i], t)
    ensures Sound(run.cfg, t)
  {
    AlwaysSound(run, i);
    assert run.IsStepAt(i);
    WithinIsSound(run.cfg, run.states[i], run.steps[i], t);
  }

  lemma PausedGrows(run: Run, k: nat)
    requires run.IsValid() && k < |run.steps|
    ensures run.states[k].work.paused <= run.states[k + 1].work.paused
  {
    AlwaysSound(run, k);
    assert run.IsStepAt(k);
    StepKeepsSound(run.cfg, run.states[k], run.steps[k], run.states[k + 1]);
  }

  lemma {:induction false} PausedStays(run: Run, i: nat, j: nat)
    requires run.IsValid() && i <= j <= |run.steps|
    ensures run.states[i].work.paused <= run.states[j].work.paused
    decreases j
  {
    if i < j {
      PausedStays(run, i, j - 1);
      PausedGrows(run, j - 1);
    }
  }

  /** A paused issue is never dispatched again: it never runs and is never queued from then on. */
  lemma {:induction false} PausedNeverRunsAgain(run: Run, i: nat, j: nat, id: IssueId)
    requires run.IsValid() && i <= j <= |run.steps| && id in run.states[i].work.paused
    ensures id in run.states[j].work.paused && id !in run.states[j].work.running && !IsQueued(run.states[j].work.backoff, id)
  {
    AlwaysSound(run, j);
    PausedStays(run, i, j);
  }

  lemma LowerTwice(s: string)
    ensures ToLower(ToLower(s)) == ToLower(s)
  {
  }

  /** Normalizing twice is normalizing once, so the signal taken from an event passes the test exactly when
      the event does. */
  lemma SignalSurvives(eventType: string)
    ensures HasExplicitSuccessSignal(CompletionSignal(eventType)) <==> HasExplicitSuccessSignal(eventType)
  {
    NormalizedTwice(eventType);
    assert Normalized("") == "";
  }

  lemma NormalizedTwice(s: string)
    ensures Normalized(Normalized(s)) == Normalized(s)
  {
    var lower, once := ToLower(s), Normalized(s);
    var i, j := TrimmedPart(IsGoSpace, lower);
    LowerTwice(s);
    assert forall k :: 0 <= k < |lower| ==> ToLower(lower)[k] == lower[k];
    assert ToLower(once) == once;
    TrimmedStays(IsGoSpace, once);
  }

  /** A managed run counts as a success exactly when its process ended without error and it either reported
      no event at all, or is streaming and its last event is an explicit success signal. */
  lemma SuccessIffSignalled(entry: RunEntry, done: DoneError)
    requires IsFiled(entry)
    ensures FinalPhase(entry.phase, PhaseMessage(entry), done) == Succeeded <==>
            && done == NoError
            && (entry.phase == InitializingSession
                || (entry.phase == StreamingTurn && HasExplicitSuccessSignal(entry.lastEvent)))
  {
    SignalSurvives(entry.lastEvent);
  }

  /** In every reachable state, a finished run is not retried exactly in that case. */
  lemma ReachableSuccessIff(run: Run, i: nat, id: IssueId, done: DoneError, verdict: Verdict, now: int)
    requires run.IsValid() && i <= |run.steps| && id in run.states[i].work.running
    ensures var entry := run.states[i].work.running[id];
            !IsQueued(CompleteRun(run.cfg, run.states[i], id, done, verdict, now).work.backoff, id) <==>
              && done == NoError
              && (entry.phase == InitializingSession
                  || (entry.phase == StreamingTurn && HasExplicitSuccessSignal(entry.lastEvent)))
  {
    AlwaysSound(run, i);
    var s, entry := run.states[i], run.states[i].work.running[id];
    SuccessIffSignalled(entry, done);
    var next := RetryEntry(run.cfg, id, entry.attempt, now);
    UpsertReplaces(s.work.backoff, next);
    QueuedIffEntry(Upserted(s.work.backoff, next), id);
  }
}
