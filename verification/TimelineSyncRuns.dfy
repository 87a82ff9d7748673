/** What the comment syncer guarantees over any number of passes. */
module TimelineSyncRuns {
  import opened Options
  import opened Text
  import opened Timelines
  import opened TimelineSync

  // ---------------------------------------------------------------------------------------------
  // What each step appends
  // ---------------------------------------------------------------------------------------------

  /** The roots a pass keeps are the stored ones. */
  ghost predicate RootsAgree(target: string, p: Progress) {
    p.roots == TargetRoots(Replay(p.world.log).runSyncs, target)
  }

  lemma EnsureRootEffect(cfg: Config, around: Surroundings, now: int, runId: string, p: Progress)
    requires RootsAgree(cfg.target, p)
    ensures
      var (next, root, ok) := EnsureRoot(cfg, around, now, runId, RootOf(p.roots, runId), p.world);
      var s, t := Replay(p.world.log), Replay(next.log);
      && t.nodes == s.nodes && t.nodeSyncs == s.nodeSyncs
      && TargetRoots(t.runSyncs, cfg.target) == if ok then p.roots[runId := root] else p.roots
  {
    var state := RootOf(p.roots, runId);
    if HasRoot(state) || IsPending(state.retryAt, now) {
      assert p.roots[runId := state] == p.roots;
    } else {
      var root := RootOutcome(cfg, runId, around.roots(|p.world.calls|));
      ReplayAppend(p.world.log, RunSyncUpsert(root));
      TargetRootsUpdated(Replay(p.world.log).runSyncs, root);
    }
  }

  lemma TargetRootsUpdated(states: map<(string, string), RunSync>, state: RunSync)
    ensures TargetRoots(states[(state.runId, state.target) := state], state.target)
         == TargetRoots(states, state.target)[state.runId := state]
  {
    var next := states[(state.runId, state.target) := state];
    var roots := TargetRoots(next, state.target);
    assert (state.runId, state.target) in next;
    forall runId | runId in TargetRoots(states, state.target) ensures runId in roots {
      assert (runId, state.target) in next;
    }
  }

  predicate NoRootCalls(calls: seq<Call>) {
    forall i :: 0 <= i < |calls| ==> !calls[i].RootCall?
  }

  /** The store accepts, creations succeed and updates succeed or do not exist. Root comments of runs
      may fail in any way. */
  ghost predicate NodesSucceed(around: Surroundings) {
    && (forall n :: around.stores(n))
    && (forall n :: around.creations(n).Done?)
    && (forall n :: !around.updates(n).Refused?)
  }

  /** A snapshot in which the state of one node may have been replaced. */
  function WithNodeState(s: Snapshot, state: NodeSync): Snapshot {
    s.(nodeSyncs := s.nodeSyncs[(state.key, state.target) := state])
  }

  lemma MarkEffect(cfg: Config, around: Surroundings, node: Node, answer: Answer, w: World)
    ensures
      var (next, ok) := Mark(cfg, around, node, answer, w);
      && next.calls == w.calls && ok == around.stores(|w.calls|)
      && Replay(next.log) == (if ok then WithNodeState(Replay(w.log), NodeOutcome(cfg, node, answer)) else Replay(w.log))
  {
    ReplayAppend(w.log, NodeSyncUpsert(NodeOutcome(cfg, node, answer)));
  }

  /** Syncing a node makes at least one call, none for a run's root, and stores the answer to the last. */
  lemma SyncNodeEffect(cfg: Config, around: Surroundings, node: Node, parentId: string, state: NodeSync, w: World)
    returns (more: seq<Call>, answer: Answer)
    ensures more != [] && NoRootCalls(more)
    ensures
      var (next, ok) := SyncNode(cfg, around, node, parentId, state, w);
      && next.calls == w.calls + more
      && Replay(next.log) == (if ok then WithNodeState(Replay(w.log), NodeOutcome(cfg, node, answer)) else Replay(w.log))
      && (NodesSucceed(around) ==> ok && answer.Done?)
  {
    var update := UpdateCall(node.key, state.commentId, around.updates(|w.calls|));
    if WantsUpdate(node, state) && !update.answer.Unsupported? {
      more, answer := [update], update.answer;
      MarkEffect(cfg, around, node, answer, w.(calls := w.calls + more));
    } else {
      var tried := if WantsUpdate(node, state) then w.calls + [update] else w.calls;
      var creations := Creations(cfg, around, node, parentId, |tried|);
      more, answer := (if WantsUpdate(node, state) then [update] else []) + creations, creations[|creations| - 1].answer;
      assert w.calls + more == tried + creations;
      MarkEffect(cfg, around, node, answer, w.(calls := tried + creations));
    }
  }

  // ---------------------------------------------------------------------------------------------
  // A run gets at most one root comment
  // ---------------------------------------------------------------------------------------------

  /** A root comment was created, got an id, and its record reached the log. */
  predicate Landed(call: Call) {
    call.RootCall? && call.stored && call.answer.Done? && call.answer.id != ""
  }

  ghost predicate HasLanded(calls: seq<Call>, runId: string) {
    exists i :: 0 <= i < |calls| && Landed(calls[i]) && calls[i].runId == runId
  }

  /** The runs known to have a root comment are those for which one has landed. */
  ghost predicate LandedAreKnown(roots: map<string, RunSync>, calls: seq<Call>) {
    forall runId :: HasRoot(RootOf(roots, runId)) <==> HasLanded(calls, runId)
  }

  /** Once a root comment has landed, the writer is never again asked for one for that run. */
  ghost predicate NoRootAfterLanded(calls: seq<Call>) {
    forall i, j :: 0 <= i < j < |calls| && Landed(calls[i]) && calls[j].RootCall? ==> calls[i].runId != calls[j].runId
  }

  ghost predicate Rooted(roots: map<string, RunSync>, calls: seq<Call>) {
    LandedAreKnown(roots, calls) && NoRootAfterLanded(calls)
  }

  lemma EnsureRootKeepsRooted(cfg: Config, around: Surroundings, now: int, runId: string, roots: map<string, RunSync>, w: World)
    requires Rooted(roots, w.calls)
    ensures
      var (next, root, ok) := EnsureRoot(cfg, around, now, runId, RootOf(roots, runId), w);
      Rooted(if ok then roots[runId := root] else roots, next.calls)
  {
    var (next, root, ok) := EnsureRoot(cfg, around, now, runId, RootOf(roots, runId), w);
    if next.calls != w.calls {
      RootCallKeepsRooted(roots, w.calls, RootCall(runId, around.roots(|w.calls|), ok), root);
    }
  }

  lemma RootCallKeepsRooted(roots: map<string, RunSync>, calls: seq<Call>, call: Call, root: RunSync)
    requires Rooted(roots, calls) && call.RootCall? && !HasRoot(RootOf(roots, call.runId))
    requires call.stored ==> (Landed(call) <==> HasRoot(root))
    ensures Rooted(if call.stored then roots[call.runId := root] else roots, calls + [call])
  {
    LandedWith(calls, [call]);
    var longer := calls + [call];
    assert !HasLanded(calls, call.runId);
    assert forall i :: 0 <= i < |calls| ==> longer[i] == calls[i];
    assert forall runId :: HasLanded([call], runId) <==> Landed([call][0]) && call.runId == runId;
  }

  /** What has landed in a longer list of calls. */
  lemma LandedWith(calls: seq<Call>, more: seq<Call>)
    ensures forall runId :: HasLanded(calls + more, runId) <==> HasLanded(calls, runId) || HasLanded(more, runId)
  {
    var longer := calls + more;
    assert forall i :: 0 <= i < |calls| ==> longer[i] == calls[i];
    assert forall i :: 0 <= i < |more| ==> longer[|calls| + i] == more[i];
    forall runId ensures HasLanded(longer, runId) <==> HasLanded(calls, runId) || HasLanded(more, runId) {
      if i :| 0 <= i < |longer| && Landed(longer[i]) && longer[i].runId == runId {
        if i >= |calls| {
          assert Landed(more[i - |calls|]);
        }
      }
    }
  }

  lemma OtherCallsKeepRooted(roots: map<string, RunSync>, calls: seq<Call>, more: seq<Call>)
    requires Rooted(roots, calls) && NoRootCalls(more)
    ensures Rooted(roots, calls + more)
  {
    LandedWith(calls, more);
    var longer := calls + more;
    assert forall i :: 0 <= i < |longer| ==> longer[i] == if i < |calls| then calls[i] else more[i - |calls|];
  }

  /** The pass is sound: its roots are the stored ones and no root comment is asked for twice. */
  ghost predicate Sound(target: string, p: Progress) {
    && Rooted(TargetRoots(Replay(p.world.log).runSyncs, target), p.world.calls)
    && (p.ok ==> RootsAgree(target, p))
  }

  lemma ProcessNodeKeepsSound(cfg: Config, around: Surroundings, i: nat, node: Node, state: NodeSync, p: Progress)
    requires Sound(cfg.target, p) && p.ok
    ensures Sound(cfg.target, ProcessNode(cfg, around, i, node, state, p))
  {
    if !Skips(cfg, around, i, node, state) {
      var now, runId := around.rootClock(i), node.key.runId;
      var (rooted, root, ok) := EnsureRoot(cfg, around, now, runId, RootOf(p.roots, runId), p.world);
      EnsureRootEffect(cfg, around, now, runId, p);
      EnsureRootKeepsRooted(cfg, around, now, runId, p.roots, p.world);
      if ok {
        var more, answer := SyncNodeEffect(cfg, around, EnsureNodeHash(cfg.digest, node), root.commentId, state, rooted);
        OtherCallsKeepRooted(p.roots[runId := root], rooted.calls, more);
      }
    }
  }

  lemma AdvanceKeepsSound(
    cfg: Config, around: Surroundings, nodes: seq<Node>, i: nat, start: map<(NodeKey, string), NodeSync>, p: Progress)
    requires i < |nodes| && Sound(cfg.target, p)
    ensures Sound(cfg.target, Advance(cfg, around, nodes, i, start, p))
  {
    if p.ok {
      ProcessNodeKeepsSound(cfg, around, i, nodes[i], NodeState(start, cfg.target, nodes[i].key), p);
    }
  }

  lemma ProcessedKeepsSound(
    cfg: Config, around: Surroundings, nodes: seq<Node>, i: nat, start: map<(NodeKey, string), NodeSync>, p: Progress)
    requires i <= |nodes| && Sound(cfg.target, p)
    ensures Sound(cfg.target, Processed(cfg, around, nodes, i, start, p))
  {
    var inv := (k: nat, q: Progress) => Sound(cfg.target, q);
    forall k: nat, q: Progress | k < |nodes| && inv(k, q) ensures inv(k + 1, Advance(cfg, around, nodes, k, start, q)) {
      AdvanceKeepsSound(cfg, around, nodes, k, start, q);
    }
    ProcessedKeeps(cfg, around, nodes, i, start, p, inv);
  }

  /** What holds at the start of a pass and is kept by each node holds after every node. */
  lemma {:induction false} ProcessedKeeps(
    cfg: Config, around: Surroundings, nodes: seq<Node>, i: nat, start: map<(NodeKey, string), NodeSync>, p: Progress,
    inv: (nat, Progress) -> bool)
    requires i <= |nodes| && inv(0, p)
    requires forall k: nat, q {:trigger Advance(cfg, around, nodes, k, start, q)} ::
               k < |nodes| && inv(k, q) ==> inv(k + 1, Advance(cfg, around, nodes, k, start, q))
    ensures inv(i, Processed(cfg, around, nodes, i, start, p))
  {
    if i > 0 {
      ProcessedKeeps(cfg, around, nodes, i - 1, start, p, inv);
    }
  }

  /** Passes of the syncer, between which others append to the timeline. */
  datatype Event = Pass(around: Surroundings, nodes: seq<Node>) | Write(record: Record)

  /** Only the syncer writes the run states of its target. */
  predicate IsForeign(target: string, event: Event) {
    event.Write? ==> !(event.record.RunSyncUpsert? && event.record.runSync.target == target)
  }

  function Happened(cfg: Config, w: World, event: Event): World {
    match event
    case Pass(around, nodes) => ProcessIssue(cfg, around, nodes, w).world
    case Write(record) => w.(log := Appended(w.log, record))
  }

  function After(cfg: Config, events: seq<Event>): World {
    if |events| == 0 then World([], []) else Happened(cfg, After(cfg, events[..|events| - 1]), events[|events| - 1])
  }

  lemma WriteKeepsRoots(target: string, s: Snapshot, record: Record)
    requires IsForeign(target, Write(record))
    ensures TargetRoots(Taken(s, record).runSyncs, target) == TargetRoots(s.runSyncs, target)
  {
    if record.RunSyncUpsert? {
      var changed := (record.runSync.runId, record.runSync.target);
      var roots, after := TargetRoots(s.runSyncs, target), TargetRoots(Apply(s, record).runSyncs, target);
      forall runId | runId in roots ensures runId in after {
        assert (runId, target) in s.runSyncs && (runId, target) != changed;
      }
    }
  }

  lemma HappenedKeepsSound(cfg: Config, w: World, event: Event)
    requires Sound(cfg.target, Begin(cfg, w)) && IsForeign(cfg.target, event)
    ensures Sound(cfg.target, Begin(cfg, Happened(cfg, w, event)))
  {
    match event
    case Pass(around, nodes) =>
      ProcessedKeepsSound(cfg, around, nodes, |nodes|, Replay(w.log).nodeSyncs, Begin(cfg, w));
    case Write(record) =>
      ReplayAppended(w.log, record);
      WriteKeepsRoots(cfg.target, Replay(w.log), record);
  }

  /** Over any passes, with any writer, any store failures and any writes in between: after a root
      comment has landed for a run, no later call asks for a root comment of that run. */
  lemma {:induction false} RootCommentIsCreatedOnce(cfg: Config, events: seq<Event>)
    requires forall i :: 0 <= i < |events| ==> IsForeign(cfg.target, events[i])
    ensures Sound(cfg.target, Begin(cfg, After(cfg, events)))
    ensures NoRootAfterLanded(After(cfg, events).calls)
  {
    if |events| > 0 {
      var last := |events| - 1;
      RootCommentIsCreatedOnce(cfg, events[..last]);
      HappenedKeepsSound(cfg, After(cfg, events[..last]), events[last]);
    }
  }

  /** In every reachable world a run is known to have a root comment if and only if one has landed. */
  lemma KnownIffLanded(cfg: Config, events: seq<Event>, runId: string)
    requires forall i :: 0 <= i < |events| ==> IsForeign(cfg.target, events[i])
    ensures HasRoot(RootOf(Begin(cfg, After(cfg, events)).roots, runId)) <==> HasLanded(After(cfg, events).calls, runId)
  {
    RootCommentIsCreatedOnce(cfg, events);
  }

  // ---------------------------------------------------------------------------------------------
  // When a root comment is asked for
  // ---------------------------------------------------------------------------------------------

  /** Call m is among those added and asks for the run's root comment. */
  predicate AsksAt(before: seq<Call>, after: seq<Call>, runId: string, m: int) {
    |before| <= m < |after| && after[m].RootCall? && after[m].runId == runId
  }

  ghost predicate AsksFor(before: seq<Call>, after: seq<Call>, runId: string) {
    exists m :: AsksAt(before, after, runId, m)
  }

  /** Moving over a node asks for its run's root comment exactly when the node is not skipped, none has
      landed for the run, and the run is not told to be retried later. */
  lemma ProcessNodeAsksIff(cfg: Config, around: Surroundings, i: nat, node: Node, state: NodeSync, p: Progress)
    requires Sound(cfg.target, p) && p.ok
    ensures
      var runId := node.key.runId;
      var after := ProcessNode(cfg, around, i, node, state, p).world.calls;
      && (AsksFor(p.world.calls, after, runId) <==>
            && !Skips(cfg, around, i, node, state)
            && !HasLanded(p.world.calls, runId)
            && !IsPending(RootOf(p.roots, runId).retryAt, around.rootClock(i)))
      && (forall m :: AsksAt(p.world.calls, after, runId, m) ==> after[m].answer == around.roots(m))
      && p.world.calls <= after
  {
    var runId, now := node.key.runId, around.rootClock(i);
    var known, calls := RootOf(p.roots, runId), p.world.calls;
    assert HasRoot(known) <==> HasLanded(calls, runId);
    if !Skips(cfg, around, i, node, state) {
      var (rooted, root, ok) := EnsureRoot(cfg, around, now, runId, known, p.world);
      var after := ProcessNode(cfg, around, i, node, state, p).world.calls;
      var more: seq<Call> := [];
      if ok {
        var answer;
        more, answer := SyncNodeEffect(cfg, around, EnsureNodeHash(cfg.digest, node), root.commentId, state, rooted);
      }
      assert after == rooted.calls + more;
      OnlyFirstAsks(calls, RootCall(runId, around.roots(|calls|), ok), rooted.calls, more);
    }
  }

  lemma OnlyFirstAsks(calls: seq<Call>, call: Call, rooted: seq<Call>, more: seq<Call>)
    requires call.RootCall? && (rooted == calls || rooted == calls + [call]) && NoRootCalls(more)
    ensures calls <= rooted + more
    ensures AsksFor(calls, rooted + more, call.runId) <==> rooted != calls
    ensures forall m :: AsksAt(calls, rooted + more, call.runId, m) ==> m == |calls| && (rooted + more)[m] == call
  {
    var after := rooted + more;
    assert forall m :: |rooted| <= m < |after| ==> after[m] == more[m - |rooted|];
    if rooted != calls {
      assert AsksAt(calls, after, call.runId, |calls|);
    }
  }

  /** A pass from any reachable world, about to move over its node i. */
  function Arrived(cfg: Config, events: seq<Event>, around: Surroundings, nodes: seq<Node>, i: nat): Progress
    requires i <= |nodes|
  {
    var w := After(cfg, events);
    Processed(cfg, around, nodes, i, Replay(w.log).nodeSyncs, Begin(cfg, w))
  }

  /** In every pass from every reachable world: the node it arrives at makes it ask for the run's root
      comment exactly when the node is not skipped, no root comment has landed for the run so far, and the
      run is not told to be retried later. */
  lemma PassAsksForRootIff(cfg: Config, events: seq<Event>, around: Surroundings, nodes: seq<Node>, i: nat)
    requires forall k :: 0 <= k < |events| ==> IsForeign(cfg.target, events[k])
    requires i < |nodes| && Arrived(cfg, events, around, nodes, i).ok
    ensures
      var p, q := Arrived(cfg, events, around, nodes, i), Arrived(cfg, events, around, nodes, i + 1);
      var runId := nodes[i].key.runId;
      && (AsksFor(p.world.calls, q.world.calls, runId) <==>
            && !SkipsAt(cfg, around, nodes, Replay(After(cfg, events).log).nodeSyncs, i)
            && !HasLanded(p.world.calls, runId)
            && !IsPending(RootOf(p.roots, runId).retryAt, around.rootClock(i)))
      && (forall m :: AsksAt(p.world.calls, q.world.calls, runId, m) ==> q.world.calls[m].answer == around.roots(m))
      && p.world.calls <= q.world.calls
  {
    var w, p := After(cfg, events), Arrived(cfg, events, around, nodes, i);
    var start := Replay(w.log).nodeSyncs;
    RootCommentIsCreatedOnce(cfg, events);
    ProcessedKeepsSound(cfg, around, nodes, i, start, Begin(cfg, w));
    ProcessNodeAsksIff(cfg, around, i, nodes[i], NodeState(start, cfg.target, nodes[i].key), p);
  }

  /** A root comment that was created but has not landed, because its record was refused or it got no id,
      is created once more by any node of the run that is not skipped and finds nothing landed and no
      retry pending. */
  lemma UnlandedRootIsCreatedAgain(
    cfg: Config, events: seq<Event>, around: Surroundings, nodes: seq<Node>, i: nat, k: nat) returns (m: nat)
    requires forall k :: 0 <= k < |events| ==> IsForeign(cfg.target, events[k])
    requires i < |nodes| && Arrived(cfg, events, around, nodes, i).ok && forall n :: around.roots(n).Done?
    requires
      var p, runId := Arrived(cfg, events, around, nodes, i), nodes[i].key.runId;
      && k < |p.world.calls| && p.world.calls[k].RootCall? && p.world.calls[k].runId == runId && p.world.calls[k].answer.Done?
      && !SkipsAt(cfg, around, nodes, Replay(After(cfg, events).log).nodeSyncs, i)
      && !HasLanded(p.world.calls, runId)
      && !IsPending(RootOf(p.roots, runId).retryAt, around.rootClock(i))
    ensures
      var calls := Arrived(cfg, events, around, nodes, i + 1).world.calls;
      && Arrived(cfg, events, around, nodes, i).world.calls <= calls
      && k < m < |calls| && calls[m].RootCall? && calls[m].runId == nodes[i].key.runId && calls[m].answer.Done?
  {
    PassAsksForRootIff(cfg, events, around, nodes, i);
    var p, q := Arrived(cfg, events, around, nodes, i), Arrived(cfg, events, around, nodes, i + 1);
    m :| AsksAt(p.world.calls, q.world.calls, nodes[i].key.runId, m);
  }

  const EXAMPLE := Node(NodeKey("r", "n", 1), "h", true, "")

  /** Comments are created but nothing can be stored. */
  const LOSSY := Surroundings(n => Done("c"), n => Done("c"), n => Done("c"), n => false, n => 0, n => 0)

  /** For instance, a timeline of one node whose run has no root comment. */
  lemma ExampleAsksForRoot(cfg: Config)
    ensures AsksForRoot(cfg, LOSSY, [EXAMPLE], World([NodeUpsert(EXAMPLE)], []))
  {
    ReplayAppend([], NodeUpsert(EXAMPLE));
    assert Replay([NodeUpsert(EXAMPLE)]) == Snapshot(map[], map[EXAMPLE.key := EXAMPLE], map[], map[]);
  }

  /** The first node of the listing makes the pass ask for its run's root comment. */
  ghost predicate AsksForRoot(cfg: Config, around: Surroundings, nodes: seq<Node>, w: World) {
    && |nodes| > 0
    && !Skips(cfg, around, 0, nodes[0], NodeState(Replay(w.log).nodeSyncs, cfg.target, nodes[0].key))
    && var root := RootOf(Begin(cfg, w).roots, nodes[0].key.runId);
       !HasRoot(root) && !IsPending(root.retryAt, around.rootClock(0))
  }

  lemma RefusedRecordStopsPass(cfg: Config, around: Surroundings, nodes: seq<Node>, w: World)
    requires AsksForRoot(cfg, around, nodes, w) && !around.stores(|w.calls|)
    ensures ProcessIssue(cfg, around, nodes, w).world
         == World(w.log, w.calls + [RootCall(nodes[0].key.runId, around.roots(|w.calls|), false)])
  {
    var start, p := Replay(w.log).nodeSyncs, Begin(cfg, w);
    assert Processed(cfg, around, nodes, 0, start, p) == p;
    StaysStopped(cfg, around, nodes, 1, start, p);
  }

  /** The record must land: while the store refuses it, each pass creates the comment once more. */
  lemma UnstoredRootIsCreatedAgain(cfg: Config, around: Surroundings, nodes: seq<Node>, w: World)
    requires AsksForRoot(cfg, around, nodes, w) && forall n :: !around.stores(n) && around.roots(n).Done?
    ensures
      var after := ProcessIssue(cfg, around, nodes, ProcessIssue(cfg, around, nodes, w).world).world;
      var n := |w.calls|;
      && |after.calls| == n + 2
      && after.calls[n].RootCall? && after.calls[n].answer.Done?
      && after.calls[n + 1].RootCall? && after.calls[n + 1].answer.Done?
      && after.calls[n].runId == after.calls[n + 1].runId
  {
    RefusedRecordStopsPass(cfg, around, nodes, w);
    RefusedRecordStopsPass(cfg, around, nodes, ProcessIssue(cfg, around, nodes, w).world);
  }

  /** The id must not be empty either: when root comments get none, the first two nodes of a listing get
      their run two root comments in a single pass. */
  lemma IdlessRootIsCreatedTwice(cfg: Config, around: Surroundings, nodes: seq<Node>, w: World) returns (k: nat, m: nat)
    requires Sound(cfg.target, Begin(cfg, w)) && AsksForRoot(cfg, around, nodes, w)
    requires |nodes| > 1 && nodes[1].key.runId == nodes[0].key.runId
    requires !SkipsAt(cfg, around, nodes, Replay(w.log).nodeSyncs, 1)
    requires forall n :: around.stores(n) && around.roots(n) == Done("")
    ensures
      var calls := Processed(cfg, around, nodes, 2, Replay(w.log).nodeSyncs, Begin(cfg, w)).world.calls;
      && k < m < |calls| && calls[k].RootCall? && calls[m].RootCall? && calls[k].runId == calls[m].runId
      && calls[k].answer.Done? && calls[m].answer.Done?
  {
    var p, start := Begin(cfg, w), Replay(w.log).nodeSyncs;
    var first, second := NodeState(start, cfg.target, nodes[0].key), NodeState(start, cfg.target, nodes[1].key);
    var q := ProcessNode(cfg, around, 0, nodes[0], first, p);
    k := FirstIdless(cfg, around, nodes[0], first, p, q);
    ProcessNodeKeepsSound(cfg, around, 0, nodes[0], first, p);
    ProcessNodeAsksIff(cfg, around, 1, nodes[1], second, q);
    var r := ProcessNode(cfg, around, 1, nodes[1], second, q);
    m :| AsksAt(q.world.calls, r.world.calls, nodes[1].key.runId, m);
    TwoNodes(cfg, around, nodes, start, p, q, r);
  }

  lemma TwoNodes(
    cfg: Config, around: Surroundings, nodes: seq<Node>, start: map<(NodeKey, string), NodeSync>, p: Progress, q: Progress, r: Progress)
    requires |nodes| > 1 && p.ok && q.ok
    requires q == ProcessNode(cfg, around, 0, nodes[0], NodeState(start, cfg.target, nodes[0].key), p)
    requires r == ProcessNode(cfg, around, 1, nodes[1], NodeState(start, cfg.target, nodes[1].key), q)
    ensures Processed(cfg, around, nodes, 2, start, p) == r
  {
    assert Processed(cfg, around, nodes, 0, start, p) == p;
    assert Processed(cfg, around, nodes, 1, start, p) == Advance(cfg, around, nodes, 0, start, p) == q;
  }

  lemma FirstIdless(cfg: Config, around: Surroundings, node: Node, state: NodeSync, p: Progress, q: Progress) returns (k: nat)
    requires Sound(cfg.target, p) && p.ok && !Skips(cfg, around, 0, node, state)
    requires !HasRoot(RootOf(p.roots, node.key.runId)) && !IsPending(RootOf(p.roots, node.key.runId).retryAt, around.rootClock(0))
    requires forall n :: around.stores(n) && around.roots(n) == Done("")
    requires q == ProcessNode(cfg, around, 0, node, state, p)
    ensures q.ok && RootOf(q.roots, node.key.runId).retryAt.None? && !HasLanded(q.world.calls, node.key.runId)
    ensures AsksAt(p.world.calls, q.world.calls, node.key.runId, k) && q.world.calls[k].answer.Done?
  {
    var runId := node.key.runId;
    var call := RootCall(runId, Done(""), true);
    var (rooted, root, ok) := EnsureRoot(cfg, around, around.rootClock(0), runId, RootOf(p.roots, runId), p.world);
    assert rooted.calls == p.world.calls + [call];
    var more, answer := SyncNodeEffect(cfg, around, EnsureNodeHash(cfg.digest, node), root.commentId, state, rooted);
    StillNotLanded(p.world.calls, call, more, runId);
    k := |p.world.calls|;
  }

  lemma StillNotLanded(calls: seq<Call>, call: Call, more: seq<Call>, runId: string)
    requires !HasLanded(calls, runId) && !Landed(call) && NoRootCalls(more)
    ensures !HasLanded(calls + [call] + more, runId)
  {
    LandedWith(calls, [call]);
    LandedWith(calls + [call], more);
  }

  const OTHER_EXAMPLE := Node(NodeKey("r", "m", 1), "h", true, "")

  /** For instance, a timeline of two nodes of one run. */
  lemma ExampleIsIdless(cfg: Config, around: Surroundings)
    ensures
      var w := World([NodeUpsert(EXAMPLE), NodeUpsert(OTHER_EXAMPLE)], []);
      && Sound(cfg.target, Begin(cfg, w)) && AsksForRoot(cfg, around, [EXAMPLE, OTHER_EXAMPLE], w)
      && !SkipsAt(cfg, around, [EXAMPLE, OTHER_EXAMPLE], Replay(w.log).nodeSyncs, 1)
  {
    ReplayAppend([], NodeUpsert(EXAMPLE));
    ReplayAppend([NodeUpsert(EXAMPLE)], NodeUpsert(OTHER_EXAMPLE));
    var log := [NodeUpsert(EXAMPLE), NodeUpsert(OTHER_EXAMPLE)];
    assert log == [NodeUpsert(EXAMPLE)] + [NodeUpsert(OTHER_EXAMPLE)] && [] + [NodeUpsert(EXAMPLE)] == [NodeUpsert(EXAMPLE)];
    assert Replay(log).runSyncs == map[] && Replay(log).nodeSyncs == map[];
  }

  // ---------------------------------------------------------------------------------------------
  // When a node's comment is created
  // ---------------------------------------------------------------------------------------------

  /** Call m is among those added and creates a comment for the node. */
  predicate CreatesAt(before: seq<Call>, after: seq<Call>, key: NodeKey, m: int) {
    |before| <= m < |after| && (after[m].ReplyCall? || after[m].TopLevelCall?) && after[m].key == key
  }

  ghost predicate CreatesComment(before: seq<Call>, after: seq<Call>, key: NodeKey) {
    exists m :: CreatesAt(before, after, key, m)
  }

  function Rooting(cfg: Config, around: Surroundings, i: nat, node: Node, p: Progress): (World, RunSync, bool) {
    EnsureRoot(cfg, around, around.rootClock(i), node.key.runId, RootOf(p.roots, node.key.runId), p.world)
  }

  /** The pass gets past the run's root comment: it is not asked for, or its record is stored. */
  predicate GetsPastRoot(cfg: Config, around: Surroundings, i: nat, node: Node, p: Progress) {
    var known := RootOf(p.roots, node.key.runId);
    HasRoot(known) || IsPending(known.retryAt, around.rootClock(i)) || around.stores(|p.world.calls|)
  }

  /** The node has a comment to update, and the writer does not say that updates do not exist. */
  predicate Updates(cfg: Config, around: Surroundings, i: nat, node: Node, state: NodeSync, p: Progress) {
    && WantsUpdate(EnsureNodeHash(cfg.digest, node), state)
    && !around.updates(|Rooting(cfg, around, i, node, p).0.calls|).Unsupported?
  }

  /** Moving over a node creates a comment for it, rather than updating one or doing nothing, exactly when
      the node is not skipped, the pass gets past the root, and there is no comment it can update. */
  lemma ProcessNodeCreatesIff(cfg: Config, around: Surroundings, i: nat, node: Node, state: NodeSync, p: Progress)
    ensures
      CreatesComment(p.world.calls, ProcessNode(cfg, around, i, node, state, p).world.calls, node.key) <==>
        && !Skips(cfg, around, i, node, state) && GetsPastRoot(cfg, around, i, node, p)
        && !Updates(cfg, around, i, node, state, p)
  {
    if !Skips(cfg, around, i, node, state) {
      var (rooted, root, ok) := Rooting(cfg, around, i, node, p);
      assert ok == GetsPastRoot(cfg, around, i, node, p);
      if ok {
        SyncNodeCreatesIff(cfg, around, EnsureNodeHash(cfg.digest, node), root.commentId, state, rooted);
        RootCallsCreateNothing(p.world.calls, rooted.calls,
          SyncNode(cfg, around, EnsureNodeHash(cfg.digest, node), root.commentId, state, rooted).0.calls, node.key);
      } else {
        RootCallsCreateNothing(p.world.calls, rooted.calls, rooted.calls, node.key);
      }
    }
  }

  lemma RootCallsCreateNothing(calls: seq<Call>, rooted: seq<Call>, after: seq<Call>, key: NodeKey)
    requires calls <= rooted <= after && NoCreations(rooted[|calls|..])
    ensures CreatesComment(calls, after, key) <==> CreatesComment(rooted, after, key)
  {
    assert forall m :: |calls| <= m < |rooted| ==> after[m] == rooted[|calls|..][m - |calls|];
    if m :| CreatesAt(calls, after, key, m) {
      assert CreatesAt(rooted, after, key, m);
    }
    if m :| CreatesAt(rooted, after, key, m) {
      assert CreatesAt(calls, after, key, m);
    }
  }

  predicate NoCreations(calls: seq<Call>) {
    forall i :: 0 <= i < |calls| ==> !calls[i].ReplyCall? && !calls[i].TopLevelCall?
  }

  lemma SyncNodeCreatesIff(cfg: Config, around: Surroundings, node: Node, parentId: string, state: NodeSync, w: World)
    ensures w.calls <= SyncNode(cfg, around, node, parentId, state, w).0.calls
    ensures
      CreatesComment(w.calls, SyncNode(cfg, around, node, parentId, state, w).0.calls, node.key) <==>
        !WantsUpdate(node, state) || around.updates(|w.calls|).Unsupported?
  {
    var after := SyncNode(cfg, around, node, parentId, state, w).0.calls;
    if !WantsUpdate(node, state) {
      assert CreatesAt(w.calls, after, node.key, |w.calls|);
    } else if around.updates(|w.calls|).Unsupported? {
      assert CreatesAt(w.calls, after, node.key, |w.calls| + 1);
    } else {
      assert |after| == |w.calls| + 1 && after[|w.calls|].UpdateCall?;
    }
  }

  /** The same for every node at which any pass arrives. */
  lemma PassCreatesCommentIff(cfg: Config, around: Surroundings, nodes: seq<Node>, i: nat, w: World)
    requires i < |nodes| && Processed(cfg, around, nodes, i, Replay(w.log).nodeSyncs, Begin(cfg, w)).ok
    ensures
      var start := Replay(w.log).nodeSyncs;
      var p, q := Processed(cfg, around, nodes, i, start, Begin(cfg, w)), Processed(cfg, around, nodes, i + 1, start, Begin(cfg, w));
      CreatesComment(p.world.calls, q.world.calls, nodes[i].key) <==>
        && !SkipsAt(cfg, around, nodes, start, i) && GetsPastRoot(cfg, around, i, nodes[i], p)
        && !Updates(cfg, around, i, nodes[i], NodeState(start, cfg.target, nodes[i].key), p)
  {
    var start := Replay(w.log).nodeSyncs;
    var p := Processed(cfg, around, nodes, i, start, Begin(cfg, w));
    ProcessNodeCreatesIff(cfg, around, i, nodes[i], NodeState(start, cfg.target, nodes[i].key), p);
  }

  /** A refused update makes the syncer forget the comment: what it stores has no comment id. */
  lemma RefusedUpdateForgetsComment(cfg: Config, around: Surroundings, i: nat, node: Node, state: NodeSync, p: Progress)
    requires !Skips(cfg, around, i, node, state) && Updates(cfg, around, i, node, state, p)
    requires around.updates(|Rooting(cfg, around, i, node, p).0.calls|).Refused?
    requires RootsAgree(cfg.target, p) && ProcessNode(cfg, around, i, node, state, p).ok
    ensures
      var after := Replay(ProcessNode(cfg, around, i, node, state, p).world.log).nodeSyncs;
      && NodeState(after, cfg.target, node.key).status == Failed
      && NodeState(after, cfg.target, node.key).commentId == ""
      && NodeState(after, cfg.target, node.key).retryAt == around.updates(|Rooting(cfg, around, i, node, p).0.calls|).retryAt
  {
    var (rooted, root, ok) := Rooting(cfg, around, i, node, p);
    var hashed := EnsureNodeHash(cfg.digest, node);
    ReplayAppend(rooted.log, NodeSyncUpsert(NodeOutcome(cfg, hashed, around.updates(|rooted.calls|))));
  }

  /** So the next visit creates a second comment for the node, unless it is told to wait or the pass does
      not get past the root. */
  lemma ForgottenCommentIsCreatedAgain(cfg: Config, around: Surroundings, i: nat, node: Node, state: NodeSync, p: Progress)
    requires node.syncable && state.status == Failed && state.commentId == ""
    ensures
      CreatesComment(p.world.calls, ProcessNode(cfg, around, i, node, state, p).world.calls, node.key) <==>
        !IsPending(state.retryAt, around.nodeClock(i)) && GetsPastRoot(cfg, around, i, node, p)
  {
    ProcessNodeCreatesIff(cfg, around, i, node, state, p);
  }

  /** The node has a comment that is out of date. */
  ghost predicate IsOutdated(cfg: Config, node: Node, w: World) {
    var state := NodeState(Replay(w.log).nodeSyncs, cfg.target, node.key);
    node.syncable && state.retryAt.None? && WantsUpdate(EnsureNodeHash(cfg.digest, node), state)
  }

  /** In two passes over a node whose comment is out of date, the first of which has its update refused, the
      second creates another comment. */
  lemma RefusedUpdateIsCreatedAgain(cfg: Config, around: Surroundings, later: Surroundings, node: Node, w: World)
    requires IsOutdated(cfg, node, w)
    requires forall n :: around.stores(n) && around.updates(n) == Refused(None) && later.stores(n)
    ensures
      var mid := ProcessIssue(cfg, around, [node], w).world;
      CreatesComment(mid.calls, ProcessIssue(cfg, later, [node], mid).world.calls, node.key)
  {
    var state, p := NodeState(Replay(w.log).nodeSyncs, cfg.target, node.key), Begin(cfg, w);
    OneNode(cfg, around, node, w);
    RefusedUpdateForgetsComment(cfg, around, 0, node, state, p);
    var mid := ProcessIssue(cfg, around, [node], w).world;
    OneNode(cfg, later, node, mid);
    ForgottenCommentIsCreatedAgain(
      cfg, later, 0, node, NodeState(Replay(mid.log).nodeSyncs, cfg.target, node.key), Begin(cfg, mid));
  }

  lemma OneNode(cfg: Config, around: Surroundings, node: Node, w: World)
    ensures ProcessIssue(cfg, around, [node], w)
         == ProcessNode(cfg, around, 0, node, NodeState(Replay(w.log).nodeSyncs, cfg.target, node.key), Begin(cfg, w))
  {
    assert Processed(cfg, around, [node], 0, Replay(w.log).nodeSyncs, Begin(cfg, w)) == Begin(cfg, w);
  }

  /** For instance, a node that was synced and then upserted with another hash. */
  lemma ExampleIsOutdated(cfg: Config, calls: seq<Call>)
    ensures
      var state := NodeSync(EXAMPLE.key, cfg.target, "g", Synced, "c", None);
      IsOutdated(cfg, EXAMPLE, World([NodeSyncUpsert(state), NodeUpsert(EXAMPLE)], calls))
  {
    var state := NodeSyncUpsert(NodeSync(EXAMPLE.key, cfg.target, "g", Synced, "c", None));
    ReplayAppend([], state);
    ReplayAppend([state], NodeUpsert(EXAMPLE));
    assert [] + [state] == [state] && [state] + [NodeUpsert(EXAMPLE)] == [state, NodeUpsert(EXAMPLE)];
    assert !IsGoSpace(EXAMPLE.hash[0]);
    assert Replay([state, NodeUpsert(EXAMPLE)]).nodeSyncs == map[(EXAMPLE.key, cfg.target) := state.nodeSync];
  }

  // ---------------------------------------------------------------------------------------------
  // A pass leaves nothing to do
  // ---------------------------------------------------------------------------------------------

  lemma ProcessNodeCalls(cfg: Config, around: Surroundings, i: nat, node: Node, state: NodeSync, p: Progress)
    ensures
      var q := ProcessNode(cfg, around, i, node, state, p);
      && (Skips(cfg, around, i, node, state) ==> q == p)
      && (!Skips(cfg, around, i, node, state) ==> |q.world.calls| > |p.world.calls|)
  {
    if !Skips(cfg, around, i, node, state) {
      var runId := node.key.runId;
      var (rooted, root, ok) := EnsureRoot(cfg, around, around.rootClock(i), runId, RootOf(p.roots, runId), p.world);
      if ok {
        var more, answer := SyncNodeEffect(cfg, around, EnsureNodeHash(cfg.digest, node), root.commentId, state, rooted);
      }
    }
  }

  ghost predicate SkipsAt(cfg: Config, around: Surroundings, nodes: seq<Node>, start: map<(NodeKey, string), NodeSync>, k: int)
  {
    0 <= k < |nodes| && Skips(cfg, around, k, nodes[k], NodeState(start, cfg.target, nodes[k].key))
  }

  ghost predicate SkipsUpTo(cfg: Config, around: Surroundings, nodes: seq<Node>, start: map<(NodeKey, string), NodeSync>, i: nat)
  {
    forall k :: 0 <= k < i ==> SkipsAt(cfg, around, nodes, start, k)
  }

  lemma {:induction false} ProcessedCalls(
    cfg: Config, around: Surroundings, nodes: seq<Node>, i: nat, start: map<(NodeKey, string), NodeSync>, p: Progress)
    requires i <= |nodes| && p.ok
    ensures
      var q := Processed(cfg, around, nodes, i, start, p);
      && |q.world.calls| >= |p.world.calls|
      && (|q.world.calls| == |p.world.calls| <==> SkipsUpTo(cfg, around, nodes, start, i))
      && (SkipsUpTo(cfg, around, nodes, start, i) ==> q == p)
  {
    if i > 0 {
      ProcessedCalls(cfg, around, nodes, i - 1, start, p);
      var q := Processed(cfg, around, nodes, i - 1, start, p);
      var state := NodeState(start, cfg.target, nodes[i - 1].key);
      ProcessNodeCalls(cfg, around, i - 1, nodes[i - 1], state, q);
      assert SkipsAt(cfg, around, nodes, start, i - 1) <==> Skips(cfg, around, i - 1, nodes[i - 1], state);
      assert SkipsUpTo(cfg, around, nodes, start, i)
        <==> SkipsUpTo(cfg, around, nodes, start, i - 1) && SkipsAt(cfg, around, nodes, start, i - 1);
    }
  }

  /** A pass makes no writer call exactly when every node is not syncable, already synced with its
      present hash, or told to be retried later; it then changes nothing at all. */
  lemma PassIsQuietIff(cfg: Config, around: Surroundings, nodes: seq<Node>, w: World)
    ensures
      var after := ProcessIssue(cfg, around, nodes, w).world;
      && (after.calls == w.calls <==> SkipsUpTo(cfg, around, nodes, Replay(w.log).nodeSyncs, |nodes|))
      && (after.calls == w.calls ==> after == w)
  {
    ProcessedCalls(cfg, around, nodes, |nodes|, Replay(w.log).nodeSyncs, Begin(cfg, w));
  }

  predicate IsSettled(cfg: Config, node: Node, state: NodeSync) {
    node.syncable ==> state.status == Synced && state.hash == EnsureNodeHash(cfg.digest, node).hash
  }

  lemma ProcessNodeSettles(cfg: Config, around: Surroundings, i: nat, node: Node, p: Progress) returns (state: NodeSync)
    requires NodesSucceed(around) && p.ok && RootsAgree(cfg.target, p)
    requires !IsPending(NodeState(Replay(p.world.log).nodeSyncs, cfg.target, node.key).retryAt, around.nodeClock(i))
    ensures
      var s := Replay(p.world.log);
      var q := ProcessNode(cfg, around, i, node, NodeState(s.nodeSyncs, cfg.target, node.key), p);
      var t := Replay(q.world.log);
      && q.ok && RootsAgree(cfg.target, q) && t.nodes == s.nodes
      && IsSettled(cfg, node, state)
      && ((t.nodeSyncs == s.nodeSyncs && state == NodeState(s.nodeSyncs, cfg.target, node.key))
          || t.nodeSyncs == s.nodeSyncs[(node.key, cfg.target) := state])
  {
    state := NodeState(Replay(p.world.log).nodeSyncs, cfg.target, node.key);
    if !Skips(cfg, around, i, node, state) {
      var now, runId := around.rootClock(i), node.key.runId;
      var (rooted, root, ok) := EnsureRoot(cfg, around, now, runId, RootOf(p.roots, runId), p.world);
      EnsureRootEffect(cfg, around, now, runId, p);
      var hashed := EnsureNodeHash(cfg.digest, node);
      var more, answer := SyncNodeEffect(cfg, around, hashed, root.commentId, state, rooted);
      state := NodeOutcome(cfg, hashed, answer);
    }
  }

  /** The first i nodes are settled, the states of the others are as at the start. */
  ghost predicate SettledUpTo(
    cfg: Config, nodes: seq<Node>, i: nat, start: map<(NodeKey, string), NodeSync>, states: map<(NodeKey, string), NodeSync>)
    requires i <= |nodes|
  {
    && (forall k :: 0 <= k < i ==> IsSettled(cfg, nodes[k], NodeState(states, cfg.target, nodes[k].key)))
    && (forall k :: i <= k < |nodes| ==> NodeState(states, cfg.target, nodes[k].key) == NodeState(start, cfg.target, nodes[k].key))
  }

  ghost predicate NothingPending(cfg: Config, around: Surroundings, nodes: seq<Node>, states: map<(NodeKey, string), NodeSync>) {
    forall k :: 0 <= k < |nodes| ==> !IsPending(NodeState(states, cfg.target, nodes[k].key).retryAt, around.nodeClock(k))
  }

  lemma SettleNext(
    cfg: Config, nodes: seq<Node>, i: nat, start: map<(NodeKey, string), NodeSync>, states: map<(NodeKey, string), NodeSync>,
    state: NodeSync)
    requires i < |nodes| && SettledUpTo(cfg, nodes, i, start, states) && IsSettled(cfg, nodes[i], state)
    requires forall j, k :: 0 <= j < k < |nodes| ==> nodes[j].key != nodes[k].key
    ensures SettledUpTo(cfg, nodes, i + 1, start, states[(nodes[i].key, cfg.target) := state])
    ensures state == NodeState(states, cfg.target, nodes[i].key) ==> SettledUpTo(cfg, nodes, i + 1, start, states)
  {
  }

  ghost predicate WellUnderWay(cfg: Config, nodes: seq<Node>, i: nat, start: Snapshot, p: Progress) {
    var now := Replay(p.world.log);
    && i <= |nodes| && p.ok && RootsAgree(cfg.target, p)
    && now.nodes == start.nodes && SettledUpTo(cfg, nodes, i, start.nodeSyncs, now.nodeSyncs)
  }

  /** The nodes are the snapshot's, their comments are accepted, and none is to be retried later. */
  ghost predicate IsFavourable(cfg: Config, around: Surroundings, nodes: seq<Node>, start: Snapshot) {
    IsListing(nodes, start) && NodesSucceed(around) && NothingPending(cfg, around, nodes, start.nodeSyncs)
  }

  lemma AdvanceSettles(cfg: Config, around: Surroundings, nodes: seq<Node>, i: nat, start: Snapshot, p: Progress)
    requires IsFavourable(cfg, around, nodes, start)
    requires i < |nodes| && WellUnderWay(cfg, nodes, i, start, p)
    ensures WellUnderWay(cfg, nodes, i + 1, start, Advance(cfg, around, nodes, i, start.nodeSyncs, p))
  {
    var state := ProcessNodeSettles(cfg, around, i, nodes[i], p);
    SettleNext(cfg, nodes, i, start.nodeSyncs, Replay(p.world.log).nodeSyncs, state);
  }

  lemma ProcessedSettles(cfg: Config, around: Surroundings, nodes: seq<Node>, start: Snapshot, p: Progress)
    requires IsFavourable(cfg, around, nodes, start)
    requires WellUnderWay(cfg, nodes, 0, start, p)
    ensures WellUnderWay(cfg, nodes, |nodes|, start, Processed(cfg, around, nodes, |nodes|, start.nodeSyncs, p))
  {
    var inv := (k: nat, q: Progress) => WellUnderWay(cfg, nodes, k, start, q);
    forall k: nat, q: Progress | k < |nodes| && inv(k, q)
      ensures inv(k + 1, Advance(cfg, around, nodes, k, start.nodeSyncs, q))
    {
      AdvanceSettles(cfg, around, nodes, k, start, q);
    }
    ProcessedKeeps(cfg, around, nodes, |nodes|, start.nodeSyncs, p, inv);
  }

  lemma ListingSettles(cfg: Config, nodes: seq<Node>, start: Snapshot, states: map<(NodeKey, string), NodeSync>)
    requires IsListing(nodes, start) && SettledUpTo(cfg, nodes, |nodes|, start.nodeSyncs, states)
    ensures forall k :: k in start.nodes ==> IsSettled(cfg, start.nodes[k], NodeState(states, cfg.target, k))
  {
    forall k | k in start.nodes ensures IsSettled(cfg, start.nodes[k], NodeState(states, cfg.target, k)) {
      var i :| 0 <= i < |nodes| && nodes[i] == start.nodes[k];
    }
  }

  ghost predicate AllSettled(cfg: Config, s: Snapshot) {
    forall k :: k in s.nodes ==> IsSettled(cfg, s.nodes[k], NodeState(s.nodeSyncs, cfg.target, k))
  }

  /** With a store and a writer that accept node comments, and no node told to be retried later, one
      pass syncs every syncable node. */
  lemma OnePassSettles(cfg: Config, around: Surroundings, nodes: seq<Node>, w: World)
    requires IsFavourable(cfg, around, nodes, Replay(w.log))
    ensures
      var after := ProcessIssue(cfg, around, nodes, w);
      after.ok && Replay(after.world.log).nodes == Replay(w.log).nodes && AllSettled(cfg, Replay(after.world.log))
  {
    var start := Replay(w.log);
    ProcessedSettles(cfg, around, nodes, start, Begin(cfg, w));
    ListingSettles(cfg, nodes, start, Replay(ProcessIssue(cfg, around, nodes, w).world.log).nodeSyncs);
  }

  /** Once all is settled, a pass in whatever surroundings makes no writer call and changes nothing. */
  lemma NextPassIsQuiet(cfg: Config, around: Surroundings, nodes: seq<Node>, w: World)
    requires IsListing(nodes, Replay(w.log)) && AllSettled(cfg, Replay(w.log))
    ensures ProcessIssue(cfg, around, nodes, w).world == w
  {
    forall k | 0 <= k < |nodes| ensures SkipsAt(cfg, around, nodes, Replay(w.log).nodeSyncs, k) {
      assert nodes[k].key in Replay(w.log).nodes;
    }
    PassIsQuietIff(cfg, around, nodes, w);
  }
}
