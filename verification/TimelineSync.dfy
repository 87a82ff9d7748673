/** Mirroring a timeline into issue comments (internal/timeline/linear_syncer.go:112-248). */
module TimelineSync {
  import opened Options
  import opened Timelines

  datatype Mode = ReplyThread | TopLevel

  datatype Config = Config(target: string, mode: Mode, allowReplyFallback: bool, digest: Digest)

  /** The writer's answer to one call. `Unsupported` is the error by which a reply or an update says
      that the operation does not exist; `retryAt` is set by a rate limit. */
  datatype Answer = Done(id: string) | Unsupported | Refused(retryAt: Option<int>)

  datatype Call =
    | RootCall(runId: string, answer: Answer, stored: bool)
    | UpdateCall(key: NodeKey, commentId: string, answer: Answer)
    | ReplyCall(key: NodeKey, parentId: string, answer: Answer)
    | TopLevelCall(key: NodeKey, answer: Answer)

  /** What a pass cannot know beforehand: the answers, by number of calls made so far; whether each
      append to the store succeeds; and the clock, read before each node and before its root. */
  datatype Surroundings = Surroundings(
    roots: nat -> Answer, updates: nat -> Answer, creations: nat -> Answer, stores: nat -> bool,
    nodeClock: nat -> int, rootClock: nat -> int)

  /** The log of one issue, and every writer call made for it. */
  datatype World = World(log: seq<Record>, calls: seq<Call>)

  const NO_RUN_SYNC := RunSync("", "", Unset, "", None)
  const NO_NODE_SYNC := NodeSync(NodeKey("", "", 0), "", "", Unset, "", None)

  function NodeState(states: map<(NodeKey, string), NodeSync>, target: string, key: NodeKey): NodeSync {
    if (key, target) in states then states[(key, target)] else NO_NODE_SYNC
  }

  predicate IsPending(retryAt: Option<int>, now: int) {
    retryAt.Some? && retryAt.value > now
  }

  function RetryOf(answer: Answer): Option<int> {
    if answer.Refused? then answer.retryAt else None
  }

  function RootOutcome(cfg: Config, runId: string, answer: Answer): RunSync {
    if answer.Done? then RunSync(runId, cfg.target, Synced, answer.id, None)
    else RunSync(runId, cfg.target, Failed, "", RetryOf(answer))
  }

  function NodeOutcome(cfg: Config, node: Node, answer: Answer): NodeSync {
    if answer.Done? then NodeSync(node.key, cfg.target, node.hash, Synced, answer.id, None)
    else NodeSync(node.key, cfg.target, node.hash, Failed, "", RetryOf(answer))
  }

  predicate HasRoot(state: RunSync) {
    state.status == Synced && state.commentId != ""
  }

  /** Makes sure that the run has a root comment; the state may still be a failed one afterwards.
      The last component is false when the store refused the record. */
  function EnsureRoot(cfg: Config, around: Surroundings, now: int, runId: string, state: RunSync, w: World): (World, RunSync, bool) {
    if HasRoot(state) || IsPending(state.retryAt, now) then (w, state, true)
    else
      var answer, stored := around.roots(|w.calls|), around.stores(|w.calls|);
      var next := RootOutcome(cfg, runId, answer);
      var log := if stored then w.log + [RunSyncUpsert(next)] else w.log;
      (World(log, w.calls + [RootCall(runId, answer, stored)]), next, stored)
  }

  function Mark(cfg: Config, around: Surroundings, node: Node, answer: Answer, w: World): (World, bool) {
    var stored := around.stores(|w.calls|);
    (if stored then w.(log := w.log + [NodeSyncUpsert(NodeOutcome(cfg, node, answer))]) else w, stored)
  }

  /** The calls that create a node's comment. */
  function Creations(cfg: Config, around: Surroundings, node: Node, parentId: string, n: nat): (calls: seq<Call>)
    ensures calls != []
  {
    if cfg.mode == TopLevel then [TopLevelCall(node.key, around.creations(n))]
    else
      var reply := ReplyCall(node.key, parentId, around.creations(n));
      if reply.answer.Unsupported? && cfg.allowReplyFallback
      then [reply, TopLevelCall(node.key, around.creations(n + 1))]
      else [reply]
  }

  predicate WantsUpdate(node: Node, state: NodeSync) {
    state.commentId != "" && state.hash != "" && state.hash != node.hash
  }

  function SyncNode(cfg: Config, around: Surroundings, node: Node, parentId: string, state: NodeSync, w: World): (World, bool) {
    var n := |w.calls|;
    var update := UpdateCall(node.key, state.commentId, around.updates(n));
    if WantsUpdate(node, state) && !update.answer.Unsupported? then
      Mark(cfg, around, node, update.answer, w.(calls := w.calls + [update]))
    else
      var tried := if WantsUpdate(node, state) then w.calls + [update] else w.calls;
      var creations := Creations(cfg, around, node, parentId, |tried|);
      Mark(cfg, around, node, creations[|creations| - 1].answer, w.(calls := tried + creations))
  }

  /** A pass on its way: the world, the root states it keeps, and whether the store still accepts. */
  datatype Progress = Progress(world: World, roots: map<string, RunSync>, ok: bool)

  function RootOf(roots: map<string, RunSync>, runId: string): RunSync {
    if runId in roots then roots[runId] else NO_RUN_SYNC
  }

  predicate Skips(cfg: Config, around: Surroundings, i: nat, node: Node, state: NodeSync) {
    || !node.syncable
    || (state.status == Synced && state.hash == EnsureNodeHash(cfg.digest, node).hash)
    || IsPending(state.retryAt, around.nodeClock(i))
  }

  /** The pass moves over one node, whose stored state is the one the pass began with. */
  function ProcessNode(cfg: Config, around: Surroundings, i: nat, node: Node, state: NodeSync, p: Progress): Progress {
    if Skips(cfg, around, i, node, state) then p
    else
      var (rooted, root, ok) :=
        EnsureRoot(cfg, around, around.rootClock(i), node.key.runId, RootOf(p.roots, node.key.runId), p.world);
      if !ok then Progress(rooted, p.roots, false)
      else
        var (synced, stored) := SyncNode(cfg, around, EnsureNodeHash(cfg.digest, node), root.commentId, state, rooted);
        Progress(synced, p.roots[node.key.runId := root], stored)
  }

  /** The pass goes on to node i unless the store has refused a record. */
  function Advance(
    cfg: Config, around: Surroundings, nodes: seq<Node>, i: nat, start: map<(NodeKey, string), NodeSync>, p: Progress): Progress
    requires i < |nodes|
  {
    if p.ok then ProcessNode(cfg, around, i, nodes[i], NodeState(start, cfg.target, nodes[i].key), p) else p
  }

  /** A pass after its first i nodes, begun with the node states `start`. */
  function Processed(
    cfg: Config, around: Surroundings, nodes: seq<Node>, i: nat, start: map<(NodeKey, string), NodeSync>, p: Progress): Progress
    requires i <= |nodes|
  {
    if i == 0 then p
    else Advance(cfg, around, nodes, i - 1, start, Processed(cfg, around, nodes, i - 1, start, p))
  }

  /** The run states for one target, by run. */
  function TargetRoots(states: map<(string, string), RunSync>, target: string): map<string, RunSync> {
    map key | key in states && key.1 == target :: key.0 := states[key]
  }

  /** Every node of the snapshot once. */
  ghost predicate IsListing(nodes: seq<Node>, snapshot: Snapshot) {
    && (forall k :: k in snapshot.nodes ==> snapshot.nodes[k].key == k && snapshot.nodes[k] in nodes)
    && (forall i :: 0 <= i < |nodes| ==> nodes[i].key in snapshot.nodes && snapshot.nodes[nodes[i].key] == nodes[i])
    && (forall i, j :: 0 <= i < j < |nodes| ==> nodes[i].key != nodes[j].key)
  }

  function Begin(cfg: Config, w: World): Progress {
    Progress(w, TargetRoots(Replay(w.log).runSyncs, cfg.target), true)
  }

  function ProcessIssue(cfg: Config, around: Surroundings, nodes: seq<Node>, w: World): Progress {
    Processed(cfg, around, nodes, |nodes|, Replay(w.log).nodeSyncs, Begin(cfg, w))
  }

  ghost predicate NodesAreKeyed(snapshot: Snapshot) {
    forall k :: k in snapshot.nodes ==> snapshot.nodes[k].key == k
  }

  lemma {:induction false} ReplayIsKeyed(log: seq<Record>)
    ensures NodesAreKeyed(Replay(log))
  {
    if log != [] {
      ReplayIsKeyed(log[..|log| - 1]);
    }
  }

  /** After the store has refused a record, the rest of the pass does nothing. */
  lemma {:induction false} StaysStopped(
    cfg: Config, around: Surroundings, nodes: seq<Node>, i: nat, start: map<(NodeKey, string), NodeSync>, p: Progress)
    requires i <= |nodes| && !Processed(cfg, around, nodes, i, start, p).ok
    ensures Processed(cfg, around, nodes, |nodes|, start, p) == Processed(cfg, around, nodes, i, start, p)
    decreases |nodes| - i
  {
    if i < |nodes| {
      StaysStopped(cfg, around, nodes, i + 1, start, p);
    }
  }
}
