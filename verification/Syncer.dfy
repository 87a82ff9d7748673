/** The comment syncer as it runs: loops over a stored timeline and calls to a comment writer. */
module Syncers {
  import opened Options
  import opened Timelines
  import S = TimelineSync

  class LinearSyncer {
    const store: Store
    const cfg: S.Config
    /** Every writer call so far, with its answer. */
    var calls: seq<S.Call>

    constructor (store: Store, cfg: S.Config)
      ensures this.store == store && this.cfg == cfg && calls == []
    {
      this.store := store;
      this.cfg := cfg;
      calls := [];
    }

    ghost function Now(): S.World
      reads this, store
    {
      S.World(store.log, calls)
    }

    method EnsureRoot(around: S.Surroundings, now: int, runId: string, state: RunSync) returns (next: RunSync, ok: bool)
      modifies this, store
      ensures (Now(), next, ok) == S.EnsureRoot(cfg, around, now, runId, state, old(Now()))
    {
      if state.status == Synced && state.commentId != "" {
        return state, true;
      }
      if state.retryAt.Some? && state.retryAt.value > now {
        return state, true;
      }
      var answer := around.roots(|calls|);
      ok := around.stores(|calls|);
      if answer.Done? {
        next := RunSync(runId, cfg.target, Synced, answer.id, None);
      } else {
        next := RunSync(runId, cfg.target, Failed, "", S.RetryOf(answer));
      }
      calls := calls + [S.RootCall(runId, answer, ok)];
      if ok {
        store.Append(RunSyncUpsert(next));
      }
    }

    method Mark(around: S.Surroundings, node: Node, answer: S.Answer) returns (ok: bool)
      modifies store
      ensures (Now(), ok) == S.Mark(cfg, around, node, answer, old(Now()))
    {
      var state := if answer.Done?
        then NodeSync(node.key, cfg.target, node.hash, Synced, answer.id, None)
        else NodeSync(node.key, cfg.target, node.hash, Failed, "", S.RetryOf(answer));
      ok := around.stores(|calls|);
      if ok {
        store.Append(NodeSyncUpsert(state));
      }
    }

    method SyncNode(around: S.Surroundings, node: Node, parentId: string, state: NodeSync) returns (ok: bool)
      modifies this, store
      ensures (Now(), ok) == S.SyncNode(cfg, around, node, parentId, state, old(Now()))
    {
      if state.commentId != "" && state.hash != "" && state.hash != node.hash {
        var update := S.UpdateCall(node.key, state.commentId, around.updates(|calls|));
        calls := calls + [update];
        if !update.answer.Unsupported? {
          ok := Mark(around, node, update.answer);
          return;
        }
      }
      ghost var tried := calls;
      var answer := around.creations(|calls|);
      if cfg.mode == S.TopLevel {
        calls := calls + [S.TopLevelCall(node.key, answer)];
      } else {
        calls := calls + [S.ReplyCall(node.key, parentId, answer)];
        if answer.Unsupported? && cfg.allowReplyFallback {
          answer := around.creations(|calls|);
          calls := calls + [S.TopLevelCall(node.key, answer)];
        }
      }
      assert calls == tried + S.Creations(cfg, around, node, parentId, |tried|);
      ok := Mark(around, node, answer);
    }

    /** The nodes of a snapshot, each once. */
    method ListNodes(snapshot: Snapshot) returns (nodes: seq<Node>)
      requires S.NodesAreKeyed(snapshot)
      ensures S.IsListing(nodes, snapshot)
    {
      nodes := [];
      var left := snapshot.nodes.Keys;
      while left != {}
        invariant left <= snapshot.nodes.Keys
        invariant forall k :: k in snapshot.nodes && k !in left ==> snapshot.nodes[k] in nodes
        invariant forall i :: 0 <= i < |nodes| ==> nodes[i].key in snapshot.nodes.Keys - left && snapshot.nodes[nodes[i].key] == nodes[i]
        invariant forall i, j :: 0 <= i < j < |nodes| ==> nodes[i].key != nodes[j].key
      {
        var key :| key in left;
        nodes := nodes + [snapshot.nodes[key]];
        left := left - {key};
      }
    }

    /** One pass. The answer says whether the store took every record. */
    method ProcessIssue(around: S.Surroundings) returns (ok: bool, ghost nodes: seq<Node>)
      modifies this, store
      ensures S.IsListing(nodes, Replay(old(store.log)))
      ensures Now() == S.ProcessIssue(cfg, around, nodes, old(Now())).world
      ensures ok == S.ProcessIssue(cfg, around, nodes, old(Now())).ok
    {
      var snapshot := store.LoadSnapshot();
      S.ReplayIsKeyed(store.log);
      var listing := ListNodes(snapshot);
      nodes := listing;
      var roots := S.TargetRoots(snapshot.runSyncs, cfg.target);
      ghost var begin := S.Begin(cfg, Now());
      ok := true;
      for i := 0 to |listing|
        invariant ok ==> S.Progress(Now(), roots, ok) == S.Processed(cfg, around, nodes, i, snapshot.nodeSyncs, begin)
        invariant ok
      {
        var node, state := listing[i], S.NodeState(snapshot.nodeSyncs, cfg.target, listing[i].key);
        if !S.Skips(cfg, around, i, node, state) {
          var root, rooted := EnsureRoot(around, around.rootClock(i), node.key.runId, S.RootOf(roots, node.key.runId));
          if !rooted {
            ok := false;
            S.StaysStopped(cfg, around, nodes, i + 1, snapshot.nodeSyncs, begin);
            return;
          }
          roots := roots[node.key.runId := root];
          ok := SyncNode(around, EnsureNodeHash(cfg.digest, node), root.commentId, state);
          if !ok {
            S.StaysStopped(cfg, around, nodes, i + 1, snapshot.nodeSyncs, begin);
            return;
          }
        }
      }
    }
  }
}
