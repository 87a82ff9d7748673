/** Every call that a pass of the comment syncer makes: for what, with which ids, and what is stored after it
    (internal/timeline/linear_syncer.go:112-248). */
module TimelineSyncCalls {
  import opened Options
  import opened Timelines
  import opened TimelineSync
  import opened TimelineSyncRuns

  // ---------------------------------------------------------------------------------------------
  // The root comment as the pass knows it
  // ---------------------------------------------------------------------------------------------

  ghost predicate IsLandedFor(calls: seq<Call>, runId: string, j: int) {
    0 <= j < |calls| && Landed(calls[j]) && calls[j].runId == runId
  }

  /** The id is the one that the run's landed root call was answered with, and empty if none has landed. */
  ghost predicate IsRootId(calls: seq<Call>, runId: string, id: string) {
    && (forall j :: IsLandedFor(calls, runId, j) ==> id == calls[j].answer.id)
    && ((exists j :: IsLandedFor(calls, runId, j)) || id == "")
  }

  ghost predicate IdsAreKnown(roots: map<string, RunSync>, calls: seq<Call>) {
    forall runId :: IsRootId(calls, runId, RootOf(roots, runId).commentId)
  }

  /** The ids that the log holds are those of the landed calls, and so are the ids that the pass keeps. */
  ghost predicate KnowsRoots(target: string, p: Progress) {
    Sound(target, p) && IdsAreKnown(TargetRoots(Replay(p.world.log).runSyncs, target), p.world.calls)
  }

  lemma RootIdWith(calls: seq<Call>, more: seq<Call>, runId: string, id: string)
    requires IsRootId(calls, runId, id) && NoRootCalls(more)
    ensures IsRootId(calls + more, runId, id)
  {
    var longer := calls + more;
    assert forall j :: |calls| <= j < |longer| ==> longer[j] == more[j - |calls|];
    assert forall j :: IsLandedFor(longer, runId, j) <==> IsLandedFor(calls, runId, j);
  }

  lemma RootIdWithRoot(calls: seq<Call>, call: Call, runId: string, id: string)
    requires IsRootId(calls, runId, id) && call.RootCall? && (Landed(call) && call.runId == runId ==> !HasLanded(calls, runId))
    ensures IsRootId(calls + [call], runId, if Landed(call) && call.runId == runId then call.answer.id else id)
  {
    var longer := calls + [call];
    assert forall j :: IsLandedFor(calls, runId, j) ==> IsLandedFor(longer, runId, j);
    forall j | IsLandedFor(longer, runId, j) ensures j == |calls| || IsLandedFor(calls, runId, j) {
    }
    if Landed(call) && call.runId == runId {
      assert IsLandedFor(longer, runId, |calls|);
    }
  }

  lemma RootCallKnowsIds(roots: map<string, RunSync>, calls: seq<Call>, call: Call, root: RunSync)
    requires IdsAreKnown(roots, calls) && call.RootCall? && !HasLanded(calls, call.runId)
    requires call.stored ==> root.commentId == if Landed(call) then call.answer.id else ""
    ensures IdsAreKnown(if call.stored then roots[call.runId := root] else roots, calls + [call])
  {
    var after := if call.stored then roots[call.runId := root] else roots;
    forall runId: string ensures IsRootId(calls + [call], runId, RootOf(after, runId).commentId) {
      var id := RootOf(roots, runId).commentId;
      assert IsRootId(calls, runId, id);
      RootIdWithRoot(calls, call, runId, id);
      if runId == call.runId {
        NothingLanded(calls, runId, id);
      }
    }
  }

  lemma NothingLanded(calls: seq<Call>, runId: string, id: string)
    requires IsRootId(calls, runId, id) && !HasLanded(calls, runId)
    ensures id == ""
  {
  }

  lemma OtherCallsKnowIds(roots: map<string, RunSync>, calls: seq<Call>, more: seq<Call>)
    requires IdsAreKnown(roots, calls) && NoRootCalls(more)
    ensures IdsAreKnown(roots, calls + more)
  {
    forall runId: string ensures IsRootId(calls + more, runId, RootOf(roots, runId).commentId) {
      RootIdWith(calls, more, runId, RootOf(roots, runId).commentId);
    }
  }

  lemma EnsureRootKnowsId(cfg: Config, around: Surroundings, now: int, runId: string, roots: map<string, RunSync>, w: World)
    requires Rooted(roots, w.calls) && IdsAreKnown(roots, w.calls)
    ensures
      var (next, root, ok) := EnsureRoot(cfg, around, now, runId, RootOf(roots, runId), w);
      IdsAreKnown(if ok then roots[runId := root] else roots, next.calls)
  {
    var (next, root, ok) := EnsureRoot(cfg, around, now, runId, RootOf(roots, runId), w);
    if next.calls != w.calls {
      RootCallKnowsIds(roots, w.calls, RootCall(runId, around.roots(|w.calls|), ok), root);
    } else {
      SameRootKnowsIds(roots, w.calls, runId);
    }
  }

  lemma SameRootKnowsIds(roots: map<string, RunSync>, calls: seq<Call>, runId: string)
    requires IdsAreKnown(roots, calls)
    ensures IdsAreKnown(roots[runId := RootOf(roots, runId)], calls)
  {
    var same := roots[runId := RootOf(roots, runId)];
    assert forall other :: RootOf(same, other) == RootOf(roots, other);
  }

  lemma NodeKnowsRoots(cfg: Config, around: Surroundings, i: nat, node: Node, state: NodeSync, p: Progress)
    requires KnowsRoots(cfg.target, p) && p.ok
    ensures KnowsRoots(cfg.target, ProcessNode(cfg, around, i, node, state, p))
  {
    ProcessNodeKeepsSound(cfg, around, i, node, state, p);
    if !Skips(cfg, around, i, node, state) {
      var now, runId := around.rootClock(i), node.key.runId;
      var (rooted, root, ok) := EnsureRoot(cfg, around, now, runId, RootOf(p.roots, runId), p.world);
      EnsureRootEffect(cfg, around, now, runId, p);
      EnsureRootKnowsId(cfg, around, now, runId, p.roots, p.world);
      if ok {
        var more, answer := SyncNodeEffect(cfg, around, EnsureNodeHash(cfg.digest, node), root.commentId, state, rooted);
        OtherCallsKnowIds(p.roots[runId := root], rooted.calls, more);
      }
    }
  }

  lemma ProcessedKnowsRoots(
    cfg: Config, around: Surroundings, nodes: seq<Node>, i: nat, start: map<(NodeKey, string), NodeSync>, p: Progress)
    requires i <= |nodes| && KnowsRoots(cfg.target, p)
    ensures KnowsRoots(cfg.target, Processed(cfg, around, nodes, i, start, p))
  {
    var inv := (k: nat, q: Progress) => KnowsRoots(cfg.target, q);
    forall k: nat, q: Progress | k < |nodes| && inv(k, q) ensures inv(k + 1, Advance(cfg, around, nodes, k, start, q)) {
      if q.ok {
        NodeKnowsRoots(cfg, around, k, nodes[k], NodeState(start, cfg.target, nodes[k].key), q);
      }
    }
    ProcessedKeeps(cfg, around, nodes, i, start, p, inv);
  }

  lemma {:induction false} AlwaysKnowsRoots(cfg: Config, events: seq<Event>)
    requires forall i :: 0 <= i < |events| ==> IsForeign(cfg.target, events[i])
    ensures KnowsRoots(cfg.target, Begin(cfg, After(cfg, events)))
  {
    if |events| > 0 {
      var init, event := events[..|events| - 1], events[|events| - 1];
      AlwaysKnowsRoots(cfg, init);
      var w := After(cfg, init);
      HappenedKeepsSound(cfg, w, event);
      match event
      case Pass(around, nodes) =>
        ProcessedKnowsRoots(cfg, around, nodes, |nodes|, Replay(w.log).nodeSyncs, Begin(cfg, w));
      case Write(record) =>
        ReplayAppended(w.log, record);
        WriteKeepsRoots(cfg.target, Replay(w.log), record);
    }
  }

  // ---------------------------------------------------------------------------------------------
  // The calls of one node
  // ---------------------------------------------------------------------------------------------

  /** Call m, made for the node, is in order: it is for that node or its run, with the answer the writer gives
      to the call of that number; a root call comes first; an update is of the comment stored for the node,
      which is out of date; a reply is made in reply mode only; and a top-level comment in reply mode takes the
      place of the reply just before it, which the writer does not support. */
  ghost predicate IsInOrder(cfg: Config, around: Surroundings, node: Node, state: NodeSync, before: nat, calls: seq<Call>, m: nat)
    requires m < |calls|
  {
    match calls[m]
    case RootCall(runId, answer, stored) =>
      m == before && runId == node.key.runId && answer == around.roots(m) && stored == around.stores(m)
    case UpdateCall(key, commentId, answer) =>
      && key == node.key && answer == around.updates(m) && commentId == state.commentId != ""
      && state.hash != "" && state.hash != EnsureNodeHash(cfg.digest, node).hash
    case ReplyCall(key, _, answer) =>
      key == node.key && answer == around.creations(m) && cfg.mode == ReplyThread
    case TopLevelCall(key, answer) =>
      && key == node.key && answer == around.creations(m)
      && (cfg.mode == TopLevel
          || (cfg.allowReplyFallback && m > before && calls[m - 1].ReplyCall? && calls[m - 1].answer.Unsupported?))
  }

  ghost predicate CallsAreInOrder(cfg: Config, around: Surroundings, node: Node, state: NodeSync, before: nat, calls: seq<Call>) {
    forall m: nat {:trigger calls[m]} :: before <= m < |calls| ==> IsInOrder(cfg, around, node, state, before, calls, m)
  }

  /** Every reply goes to the root comment of the run, as far as one has landed before the reply. */
  ghost predicate RepliesAreToRoot(runId: string, before: nat, calls: seq<Call>) {
    forall m: nat {:trigger calls[m]} :: before <= m < |calls| && calls[m].ReplyCall? ==>
      IsRootId(calls[..m], runId, calls[m].parentId)
  }

  /** The writer is asked for something else when it does not support this. */
  predicate LeadsOn(cfg: Config, call: Call) {
    call.answer.Unsupported? && (call.UpdateCall? || (call.ReplyCall? && cfg.allowReplyFallback))
  }

  /** The calls from number `from` on are made for the node, in order, and their replies go to `parent`. */
  ghost predicate AreForNode(
    cfg: Config, around: Surroundings, node: Node, state: NodeSync, parent: string, before: nat, from: nat, calls: seq<Call>)
  {
    forall m: nat {:trigger calls[m]} :: from <= m < |calls| ==>
      && IsInOrder(cfg, around, node, state, before, calls, m) && !calls[m].RootCall?
      && (calls[m].ReplyCall? ==> calls[m].parentId == parent)
  }

  /** Each of the calls from number `from` on but the last leads on to the next. */
  ghost predicate LeadToEnd(cfg: Config, from: nat, calls: seq<Call>) {
    forall m: nat {:trigger calls[m]} :: from <= m < |calls| ==> (LeadsOn(cfg, calls[m]) <==> m < |calls| - 1)
  }

  /** The calls made to create a comment. */
  lemma CreationsInOrder(
    cfg: Config, around: Surroundings, node: Node, hashed: Node, parent: string, state: NodeSync, tried: seq<Call>, before: nat)
    requires before <= |tried| && hashed.key == node.key
    ensures
      var after, n := tried + Creations(cfg, around, hashed, parent, |tried|), |tried|;
      && n < |after| && !after[n].UpdateCall?
      && AreForNode(cfg, around, node, state, parent, before, n, after) && LeadToEnd(cfg, n, after)
  {
    var n, creations := |tried|, Creations(cfg, around, hashed, parent, |tried|);
    var after := tried + creations;
    assert after[n] == creations[0] && |after| == n + |creations| && |creations| <= 2;
    if |creations| == 2 {
      assert after[n + 1] == creations[1];
    }
    forall m: nat | n <= m < |after|
      ensures IsInOrder(cfg, around, node, state, before, after, m) && !after[m].RootCall?
      ensures after[m].ReplyCall? ==> after[m].parentId == parent
      ensures LeadsOn(cfg, after[m]) <==> m < |after| - 1
    {
      assert m == n || m == n + 1;
    }
  }

  /** Syncing a node adds calls in order, each of which but the last leads on to the next; the first is an
      update exactly if the stored comment is out of date. */
  lemma SyncNodeAdds(cfg: Config, around: Surroundings, node: Node, parent: string, state: NodeSync, w: World, before: nat)
    requires before <= |w.calls|
    ensures
      var hashed := EnsureNodeHash(cfg.digest, node);
      var after, n := SyncNode(cfg, around, hashed, parent, state, w).0.calls, |w.calls|;
      && w.calls < after
      && (after[n].UpdateCall? <==> state.commentId != "" && state.hash != "" && state.hash != hashed.hash)
      && AreForNode(cfg, around, node, state, parent, before, n, after) && LeadToEnd(cfg, n, after)
  {
    var hashed, n := EnsureNodeHash(cfg.digest, node), |w.calls|;
    var update := UpdateCall(node.key, state.commentId, around.updates(n));
    var after := SyncNode(cfg, around, hashed, parent, state, w).0.calls;
    if !WantsUpdate(hashed, state) {
      CreationsInOrder(cfg, around, node, hashed, parent, state, w.calls, before);
    } else if update.answer.Unsupported? {
      CreationsInOrder(cfg, around, node, hashed, parent, state, w.calls + [update], before);
      UpdateInOrder(cfg, around, node, parent, state, w.calls, after, before);
    } else {
      UpdateInOrder(cfg, around, node, parent, state, w.calls, after, before);
    }
  }

  lemma UpdateInOrder(
    cfg: Config, around: Surroundings, node: Node, parent: string, state: NodeSync, calls: seq<Call>, after: seq<Call>, before: nat)
    requires before <= |calls| < |after| && WantsUpdate(EnsureNodeHash(cfg.digest, node), state)
    requires after[|calls|] == UpdateCall(node.key, state.commentId, around.updates(|calls|))
    requires AreForNode(cfg, around, node, state, parent, before, |calls| + 1, after) && LeadToEnd(cfg, |calls| + 1, after)
    requires after[|calls|].answer.Unsupported? <==> |calls| < |after| - 1
    ensures AreForNode(cfg, around, node, state, parent, before, |calls|, after) && LeadToEnd(cfg, |calls|, after)
  {
    forall m: nat | |calls| <= m < |after|
      ensures IsInOrder(cfg, around, node, state, before, after, m) && !after[m].RootCall?
      ensures after[m].ReplyCall? ==> after[m].parentId == parent
    {
      if m == |calls| {
        assert after[m].UpdateCall?;
      }
    }
  }

  // ---------------------------------------------------------------------------------------------
  // The calls of a pass
  // ---------------------------------------------------------------------------------------------

  /** The pass leaves the node alone: it is not for syncing, or its comment is up to date, or the writer asked
      to be tried again later. */
  predicate IsLeftAlone(cfg: Config, around: Surroundings, i: nat, node: Node, state: NodeSync) {
    || !node.syncable
    || (state.status == Synced && state.hash == EnsureNodeHash(cfg.digest, node).hash)
    || (state.retryAt.Some? && state.retryAt.value > around.nodeClock(i))
  }

  /** The calls that moving over a node adds: none if it is left alone, otherwise first the run's root call,
      if it is due, and then calls that are in order, whose replies go to the run's root comment. */
  lemma NodeCalls(cfg: Config, around: Surroundings, i: nat, node: Node, state: NodeSync, p: Progress)
    requires KnowsRoots(cfg.target, p) && p.ok
    ensures
      var calls, before := ProcessNode(cfg, around, i, node, state, p).world.calls, |p.world.calls|;
      && p.world.calls <= calls
      && (|calls| == before <==> IsLeftAlone(cfg, around, i, node, state))
      && CallsAreInOrder(cfg, around, node, state, before, calls)
      && RepliesAreToRoot(node.key.runId, before, calls)
  {
    if !Skips(cfg, around, i, node, state) {
      var now, runId, before := around.rootClock(i), node.key.runId, |p.world.calls|;
      var (rooted, root, ok) := EnsureRoot(cfg, around, now, runId, RootOf(p.roots, runId), p.world);
      EnsureRootKnowsId(cfg, around, now, runId, p.roots, p.world);
      RootedInOrder(cfg, around, node, state, p.world.calls, rooted.calls);
      if ok {
        assert IsRootId(rooted.calls, runId, RootOf(p.roots[runId := root], runId).commentId);
        SyncedInOrder(cfg, around, node, root.commentId, state, rooted, before);
      }
    }
  }

  lemma RootedInOrder(cfg: Config, around: Surroundings, node: Node, state: NodeSync, calls: seq<Call>, rooted: seq<Call>)
    requires rooted == calls || rooted == calls + [RootCall(node.key.runId, around.roots(|calls|), around.stores(|calls|))]
    ensures CallsAreInOrder(cfg, around, node, state, |calls|, rooted)
    ensures NoReplies(rooted, |calls|)
  {
    forall m: nat | |calls| <= m < |rooted| ensures IsInOrder(cfg, around, node, state, |calls|, rooted, m) && !rooted[m].ReplyCall? {
      assert m == |calls|;
    }
  }

  predicate NoReplies(calls: seq<Call>, before: nat) {
    forall m {:trigger calls[m]} :: before <= m < |calls| ==> !calls[m].ReplyCall?
  }

  lemma SyncedInOrder(cfg: Config, around: Surroundings, node: Node, parent: string, state: NodeSync, w: World, before: nat)
    requires IsRootId(w.calls, node.key.runId, parent) && before <= |w.calls| && NoReplies(w.calls, before)
    requires CallsAreInOrder(cfg, around, node, state, before, w.calls)
    ensures
      var after := SyncNode(cfg, around, EnsureNodeHash(cfg.digest, node), parent, state, w).0.calls;
      && w.calls < after && CallsAreInOrder(cfg, around, node, state, before, after)
      && RepliesAreToRoot(node.key.runId, before, after)
  {
    SyncNodeAdds(cfg, around, node, parent, state, w, before);
    var after := SyncNode(cfg, around, EnsureNodeHash(cfg.digest, node), parent, state, w).0.calls;
    ExtendedInOrder(cfg, around, node, parent, state, before, w.calls, after);
  }

  lemma ExtendedInOrder(
    cfg: Config, around: Surroundings, node: Node, parent: string, state: NodeSync, before: nat, calls: seq<Call>, after: seq<Call>)
    requires IsRootId(calls, node.key.runId, parent) && before <= |calls| && NoReplies(calls, before)
    requires calls <= after && CallsAreInOrder(cfg, around, node, state, before, calls)
    requires AreForNode(cfg, around, node, state, parent, before, |calls|, after)
    ensures CallsAreInOrder(cfg, around, node, state, before, after) && RepliesAreToRoot(node.key.runId, before, after)
  {
    forall m: nat | before <= m < |after| ensures IsInOrder(cfg, around, node, state, before, after, m) {
      if m < |calls| {
        assert IsInOrder(cfg, around, node, state, before, calls, m) && after[m] == calls[m];
        if m > before {
          assert after[m - 1] == calls[m - 1];
        }
      }
    }
    forall m: nat | before <= m < |calls| ensures !after[m].ReplyCall? {
      assert after[m] == calls[m];
    }
    forall m: nat | |calls| <= m < |after| && after[m].ReplyCall? ensures IsRootId(after[..m], node.key.runId, after[m].parentId) {
      var more := after[|calls|..m];
      assert forall k :: 0 <= k < |more| ==> more[k] == after[|calls| + k];
      assert after[..m] == calls + more;
      RootIdWith(calls, more, node.key.runId, parent);
    }
  }

  /** In every pass from every reachable world, at every node at which it arrives: no call is made exactly if
      the node is left alone, and otherwise every call is in order and every reply goes to the root comment of
      the node's run, as far as one has landed. */
  lemma PassCallsAreInOrder(cfg: Config, events: seq<Event>, around: Surroundings, nodes: seq<Node>, i: nat)
    requires forall k :: 0 <= k < |events| ==> IsForeign(cfg.target, events[k])
    requires i < |nodes| && Arrived(cfg, events, around, nodes, i).ok
    ensures
      var p, q := Arrived(cfg, events, around, nodes, i), Arrived(cfg, events, around, nodes, i + 1);
      var state := NodeState(Replay(After(cfg, events).log).nodeSyncs, cfg.target, nodes[i].key);
      var before := |p.world.calls|;
      && p.world.calls <= q.world.calls
      && (|q.world.calls| == before <==> IsLeftAlone(cfg, around, i, nodes[i], state))
      && CallsAreInOrder(cfg, around, nodes[i], state, before, q.world.calls)
      && RepliesAreToRoot(nodes[i].key.runId, before, q.world.calls)
  {
    var w, p := After(cfg, events), Arrived(cfg, events, around, nodes, i);
    var start := Replay(w.log).nodeSyncs;
    AlwaysKnowsRoots(cfg, events);
    ProcessedKnowsRoots(cfg, around, nodes, i, start, Begin(cfg, w));
    NodeCalls(cfg, around, i, nodes[i], NodeState(start, cfg.target, nodes[i].key), p);
  }

  /** The run's root comment is asked for exactly if the node is not left alone, none has landed, and the
      time for the next try has come. */
  lemma RootIsAskedForIff(cfg: Config, events: seq<Event>, around: Surroundings, nodes: seq<Node>, i: nat)
    requires forall k :: 0 <= k < |events| ==> IsForeign(cfg.target, events[k])
    requires i < |nodes| && Arrived(cfg, events, around, nodes, i).ok
    ensures
      var p, q := Arrived(cfg, events, around, nodes, i), Arrived(cfg, events, around, nodes, i + 1);
      var state := NodeState(Replay(After(cfg, events).log).nodeSyncs, cfg.target, nodes[i].key);
      var runId := nodes[i].key.runId;
      var retryAt := RootOf(p.roots, runId).retryAt;
      AsksFor(p.world.calls, q.world.calls, runId) <==>
        && !IsLeftAlone(cfg, around, i, nodes[i], state) && (forall j :: !IsLandedFor(p.world.calls, runId, j))
        && (retryAt.None? || retryAt.value <= around.rootClock(i))
  {
    PassAsksForRootIff(cfg, events, around, nodes, i);
    LandedIff(Arrived(cfg, events, around, nodes, i).world.calls, nodes[i].key.runId);
  }

  lemma LandedIff(calls: seq<Call>, runId: string)
    ensures HasLanded(calls, runId) <==> exists j :: IsLandedFor(calls, runId, j)
  {
    if i :| 0 <= i < |calls| && Landed(calls[i]) && calls[i].runId == runId {
      assert IsLandedFor(calls, runId, i);
    }
  }

  // ---------------------------------------------------------------------------------------------
  // What is stored
  // ---------------------------------------------------------------------------------------------

  /** What the answer to a root call leaves behind. */
  predicate RootSays(cfg: Config, runId: string, answer: Answer, root: RunSync) {
    && root.runId == runId && root.target == cfg.target
    && match answer
       case Done(id) => root.status == Synced && root.commentId == id && root.retryAt == None
       case Unsupported => root.status == Failed && root.commentId == "" && root.retryAt == None
       case Refused(retryAt) => root.status == Failed && root.commentId == "" && root.retryAt == retryAt
  }

  /** What the answer to the last call for a node leaves behind. */
  predicate NodeSays(cfg: Config, node: Node, answer: Answer, state: NodeSync) {
    && state.key == node.key && state.target == cfg.target && state.hash == EnsureNodeHash(cfg.digest, node).hash
    && match answer
       case Done(id) => state.status == Synced && state.commentId == id && state.retryAt == None
       case Unsupported => state.status == Failed && state.commentId == "" && state.retryAt == None
       case Refused(retryAt) => state.status == Failed && state.commentId == "" && state.retryAt == retryAt
  }

  /** The root call's answer is stored, unless the store refuses it, which stops the pass. */
  lemma RootAnswerIsStored(cfg: Config, around: Surroundings, now: int, runId: string, p: Progress)
    requires RootsAgree(cfg.target, p)
    ensures
      var (next, root, ok) := EnsureRoot(cfg, around, now, runId, RootOf(p.roots, runId), p.world);
      var before := |p.world.calls|;
      if next.calls == p.world.calls then ok && next == p.world && root == RootOf(p.roots, runId)
      else
        && next.calls == p.world.calls + [RootCall(runId, around.roots(before), ok)]
        && ok == around.stores(before) && RootSays(cfg, runId, around.roots(before), root)
        && Replay(next.log).nodes == Replay(p.world.log).nodes && Replay(next.log).nodeSyncs == Replay(p.world.log).nodeSyncs
        && TargetRoots(Replay(next.log).runSyncs, cfg.target) == if ok then p.roots[runId := root] else p.roots
  {
    EnsureRootEffect(cfg, around, now, runId, p);
  }

  /** The log stored the answer for that node and no other, or is as before if the store refused it. */
  ghost predicate IsStored(cfg: Config, node: Node, answer: Answer, ok: bool, before: seq<Record>, after: seq<Record>) {
    var s, t, key := Replay(before), Replay(after), (node.key, cfg.target);
    if ok then key in t.nodeSyncs && NodeSays(cfg, node, answer, t.nodeSyncs[key]) && t.nodeSyncs == s.nodeSyncs[key := t.nodeSyncs[key]]
    else t.nodeSyncs == s.nodeSyncs
  }

  lemma AnswerIsStored(cfg: Config, around: Surroundings, node: Node, answer: Answer, w: World)
    ensures
      var (next, ok) := Mark(cfg, around, EnsureNodeHash(cfg.digest, node), answer, w);
      next.calls == w.calls && ok == around.stores(|w.calls|) && IsStored(cfg, node, answer, ok, w.log, next.log)
  {
    MarkEffect(cfg, around, EnsureNodeHash(cfg.digest, node), answer, w);
  }

  lemma LastAnswerIsMarked(cfg: Config, around: Surroundings, node: Node, parent: string, state: NodeSync, w: World)
    returns (called: World)
    ensures w.calls < called.calls && called.log == w.log
    ensures SyncNode(cfg, around, node, parent, state, w)
         == Mark(cfg, around, node, called.calls[|called.calls| - 1].answer, called)
  {
    var update := UpdateCall(node.key, state.commentId, around.updates(|w.calls|));
    if WantsUpdate(node, state) && !update.answer.Unsupported? {
      called := w.(calls := w.calls + [update]);
    } else {
      var tried := if WantsUpdate(node, state) then w.calls + [update] else w.calls;
      called := w.(calls := tried + Creations(cfg, around, node, parent, |tried|));
    }
  }

  /** The answer to the last call for the node is stored for that node and no other, unless the store refuses
      it, which stops the pass. */
  lemma LastAnswerIsStored(cfg: Config, around: Surroundings, node: Node, parent: string, state: NodeSync, w: World)
    ensures
      var (next, ok) := SyncNode(cfg, around, EnsureNodeHash(cfg.digest, node), parent, state, w);
      && w.calls < next.calls && ok == around.stores(|next.calls|)
      && IsStored(cfg, node, next.calls[|next.calls| - 1].answer, ok, w.log, next.log)
  {
    var called := LastAnswerIsMarked(cfg, around, EnsureNodeHash(cfg.digest, node), parent, state, w);
    AnswerIsStored(cfg, around, node, called.calls[|called.calls| - 1].answer, called);
  }
}
