/** The append-only timeline of one issue (internal/timeline/store.go:100-143, 200-226, 281-300). */
module Timelines {
  import opened Options
  import opened Text

  datatype NodeKey = NodeKey(runId: string, nodeId: string, attempt: int)

  /** One attempt of a workflow node. `content` stands for the fields that enter the hash and the rendered
      comment. */
  datatype Node = Node(key: NodeKey, hash: string, syncable: bool, content: string)

  datatype Run = Run(id: string, content: string)

  datatype Status = Unset | Synced | Failed

  datatype RunSync = RunSync(runId: string, target: string, status: Status, commentId: string, retryAt: Option<int>)

  datatype NodeSync = NodeSync(
    key: NodeKey, target: string, hash: string, status: Status, commentId: string, retryAt: Option<int>)

  datatype Record =
    | RunUpsert(run: Run)
    | NodeUpsert(node: Node)
    | RunSyncUpsert(runSync: RunSync)
    | NodeSyncUpsert(nodeSync: NodeSync)

  datatype Snapshot = Snapshot(
    runs: map<string, Run>,
    nodes: map<NodeKey, Node>,
    runSyncs: map<(string, string), RunSync>,
    nodeSyncs: map<(NodeKey, string), NodeSync>)

  const NEW_SNAPSHOT := Snapshot(map[], map[], map[], map[])

  function Apply(s: Snapshot, record: Record): Snapshot {
    match record
    case RunUpsert(run) => s.(runs := s.runs[run.id := run])
    case NodeUpsert(node) => s.(nodes := s.nodes[node.key := node])
    case RunSyncUpsert(state) => s.(runSyncs := s.runSyncs[(state.runId, state.target) := state])
    case NodeSyncUpsert(state) => s.(nodeSyncs := s.nodeSyncs[(state.key, state.target) := state])
  }

  /** The snapshot that a log reduces to. */
  function Replay(log: seq<Record>): Snapshot {
    if log == [] then NEW_SNAPSHOT else Apply(Replay(log[..|log| - 1]), log[|log| - 1])
  }

  lemma ReplayAppend(log: seq<Record>, record: Record)
    ensures Replay(log + [record]) == Apply(Replay(log), record)
  {
    assert (log + [record])[..|log|] == log;
  }

  /** The upsert repeats the hash its node already has. */
  predicate Repeats(s: Snapshot, record: Record) {
    record.NodeUpsert? && record.node.key in s.nodes && s.nodes[record.node.key].hash == record.node.hash
  }

  function Appended(log: seq<Record>, record: Record): seq<Record> {
    if Repeats(Replay(log), record) then log else log + [record]
  }

  /** What appending does to the snapshot. */
  function Taken(s: Snapshot, record: Record): Snapshot {
    if Repeats(s, record) then s else Apply(s, record)
  }

  lemma ReplayAppended(log: seq<Record>, record: Record)
    ensures Replay(Appended(log, record)) == Taken(Replay(log), record)
  {
    ReplayAppend(log, record);
  }

  /** The log after appending a sequence of records to an empty one. */
  function Deduplicated(records: seq<Record>): seq<Record> {
    if records == [] then []
    else Appended(Deduplicated(records[..|records| - 1]), records[|records| - 1])
  }

  /** The hash of a node's key and content, by any function. It does not see whether the node is
      syncable. */
  type Digest = (NodeKey, string) -> string

  /** A node with a hash: its own unless that is blank. */
  function EnsureNodeHash(digest: Digest, node: Node): Node {
    if IsBlank(IsGoSpace, node.hash) then node.(hash := digest(node.key, node.content)) else node
  }

  /** A node is stored with its own hash, or with the computed one if its own holds nothing but white space; so
      its hash is blank only if the computed one is. */
  lemma HashIsFilledIn(digest: Digest, node: Node)
    ensures
      var hash := EnsureNodeHash(digest, node).hash;
      && (IsBlank(IsGoSpace, hash) ==> hash == digest(node.key, node.content))
      && (!IsBlank(IsGoSpace, node.hash) ==> hash == node.hash)
      && EnsureNodeHash(digest, node).(hash := node.hash) == node
  {
  }

  class Store {
    var log: seq<Record>
    const digest: Digest

    constructor (digest: Digest)
      ensures log == [] && this.digest == digest
    {
      log := [];
      this.digest := digest;
    }

    method LoadSnapshot() returns (snapshot: Snapshot)
      ensures snapshot == Replay(log)
    {
      snapshot := NEW_SNAPSHOT;
      for i := 0 to |log|
        invariant snapshot == Replay(log[..i])
      {
        snapshot := Apply(snapshot, log[i]);
        assert log[..i + 1][..i] == log[..i];
      }
      assert log[..|log|] == log;
    }

    method Append(record: Record)
      modifies this
      ensures log == Appended(old(log), record)
    {
      if record.NodeUpsert? {
        var snapshot := LoadSnapshot();
        if record.node.key in snapshot.nodes && snapshot.nodes[record.node.key].hash == record.node.hash {
          return;
        }
      }
      log := log + [record];
    }

    method AppendNodeUpsert(node: Node)
      modifies this
      ensures log == Appended(old(log), NodeUpsert(EnsureNodeHash(digest, node)))
    {
      Append(NodeUpsert(EnsureNodeHash(digest, node)));
    }
  }

  /** Same snapshot up to what nodes with the same hash contain. */
  ghost predicate SameUpToContent(s: Snapshot, t: Snapshot) {
    && s.runs == t.runs && s.runSyncs == t.runSyncs && s.nodeSyncs == t.nodeSyncs
    && s.nodes.Keys == t.nodes.Keys
    && forall k :: k in s.nodes ==> s.nodes[k].hash == t.nodes[k].hash
  }

  /** Dropping repeated node upserts does not show in the snapshot, up to node contents. */
  lemma {:induction false} DeduplicationAgrees(records: seq<Record>)
    ensures SameUpToContent(Replay(Deduplicated(records)), Replay(records))
  {
    if records != [] {
      var last := |records| - 1;
      DeduplicationAgrees(records[..last]);
      ReplayAppended(Deduplicated(records[..last]), records[last]);
      TakenAgrees(Replay(Deduplicated(records[..last])), Replay(records[..last]), records[last]);
    }
  }

  lemma TakenAgrees(s: Snapshot, t: Snapshot, record: Record)
    requires SameUpToContent(s, t)
    ensures SameUpToContent(Taken(s, record), Apply(t, record))
  {
  }

  predicate Upserts(record: Record, key: NodeKey) {
    record.NodeUpsert? && record.node.key == key
  }

  lemma {:induction false} ReplayGivesLastUpsert(records: seq<Record>, i: nat, key: NodeKey)
    requires i < |records| && Upserts(records[i], key)
    requires forall j :: i < j < |records| ==> !Upserts(records[j], key)
    ensures key in Replay(records).nodes && Replay(records).nodes[key] == records[i].node
  {
    var last := |records| - 1;
    if i < last {
      ReplayGivesLastUpsert(records[..last], i, key);
    }
  }

  lemma {:induction false} ReplayWithoutUpsert(records: seq<Record>, key: NodeKey)
    requires forall j :: 0 <= j < |records| ==> !Upserts(records[j], key)
    ensures key !in Replay(records).nodes
  {
    if records != [] {
      ReplayWithoutUpsert(records[..|records| - 1], key);
    }
  }

  /** The deduplicated log's snapshot gives each node key the hash of its last upsert. */
  lemma SnapshotHasLastHash(records: seq<Record>, i: nat, key: NodeKey)
    requires i < |records| && Upserts(records[i], key)
    requires forall j :: i < j < |records| ==> !Upserts(records[j], key)
    ensures key in Replay(Deduplicated(records)).nodes
    ensures Replay(Deduplicated(records)).nodes[key].hash == records[i].node.hash
  {
    DeduplicationAgrees(records);
    ReplayGivesLastUpsert(records, i, key);
  }

  /** Position i starts the final stretch of upserts of the key that all carry one hash. */
  ghost predicate StartsLastHash(records: seq<Record>, i: nat, key: NodeKey) {
    && i < |records| && Upserts(records[i], key)
    && (forall j :: i < j < |records| && Upserts(records[j], key) ==> records[j].node.hash == records[i].node.hash)
    && (forall h :: IsPrevious(records, h, i, key) ==> records[h].node.hash != records[i].node.hash)
  }

  /** Position h is the upsert of the key that comes just before position i. */
  ghost predicate IsPrevious(records: seq<Record>, h: int, i: nat, key: NodeKey) {
    && 0 <= h < i <= |records| && Upserts(records[h], key)
    && forall j :: h < j < i ==> !Upserts(records[j], key)
  }

  lemma {:induction false} PreviousOrNone(records: seq<Record>, i: nat, key: NodeKey) returns (h: int)
    requires i <= |records|
    ensures IsPrevious(records, h, i, key) || (h < 0 && forall j :: 0 <= j < i ==> !Upserts(records[j], key))
  {
    if i == 0 {
      h := -1;
    } else if Upserts(records[i - 1], key) {
      h := i - 1;
    } else {
      h := PreviousOrNone(records, i - 1, key);
    }
  }

  /** What the snapshot holds for a key, exactly: the first upsert that carried the last hash. Later
      upserts with that hash, whatever else they change, are lost. */
  lemma {:induction false} SnapshotKeepsFirstOfLastHash(records: seq<Record>, i: nat, key: NodeKey)
    requires StartsLastHash(records, i, key)
    ensures key in Replay(Deduplicated(records)).nodes
    ensures Replay(Deduplicated(records)).nodes[key] == records[i].node
  {
    var last: nat := |records| - 1;
    var before := records[..last];
    ReplayAppended(Deduplicated(before), records[last]);
    if i < last {
      StartsInPrefix(records, i, key, last);
      SnapshotKeepsFirstOfLastHash(before, i, key);
      TakenKeeps(Replay(Deduplicated(before)), records[last], records[i].node);
    } else {
      FirstUpsertIsKept(records, i, key);
    }
    assert Replay(Deduplicated(records)) == Taken(Replay(Deduplicated(before)), records[last]);
  }

  lemma TakenKeeps(s: Snapshot, record: Record, node: Node)
    requires node.key in s.nodes && s.nodes[node.key] == node
    requires Upserts(record, node.key) ==> record.node.hash == node.hash
    ensures node.key in Taken(s, record).nodes && Taken(s, record).nodes[node.key] == node
  {
  }

  lemma StartsInPrefix(records: seq<Record>, i: nat, key: NodeKey, last: nat)
    requires StartsLastHash(records, i, key) && i < last < |records|
    ensures StartsLastHash(records[..last], i, key)
    ensures Upserts(records[last], key) ==> records[last].node.hash == records[i].node.hash
  {
    forall h | IsPrevious(records[..last], h, i, key) ensures IsPrevious(records, h, i, key) {
      assert forall j :: h < j < i ==> records[..last][j] == records[j];
    }
  }

  lemma FirstUpsertIsKept(records: seq<Record>, i: nat, key: NodeKey)
    requires StartsLastHash(records, i, key) && i == |records| - 1
    ensures !Repeats(Replay(Deduplicated(records[..i])), records[i])
  {
    var before := records[..i];
    DeduplicationAgrees(before);
    var h := PreviousOrNone(records, i, key);
    if h < 0 {
      ReplayWithoutUpsert(before, key);
    } else {
      ReplayGivesLastUpsert(before, h, key);
    }
  }

  /** The computed hash leaves out whether a node is syncable (internal/timeline/types.go:133-146), so
      after a node was upserted, an upsert that only changes that is left out of the log, whatever the
      log holds. */
  lemma SyncableChangeIsLost(digest: Digest, log: seq<Record>, node: Node, syncable: bool)
    requires IsBlank(IsGoSpace, node.hash)
    ensures
      var once := Appended(log, NodeUpsert(EnsureNodeHash(digest, node)));
      Appended(once, NodeUpsert(EnsureNodeHash(digest, node.(syncable := syncable)))) == once
  {
    var first := NodeUpsert(EnsureNodeHash(digest, node));
    ReplayAppended(log, first);
    assert Repeats(Replay(Appended(log, first)), NodeUpsert(EnsureNodeHash(digest, node.(syncable := syncable))));
  }

  /** For instance, a new node that is first upserted as not syncable never becomes syncable that way. */
  method TurnSyncable(digest: Digest, key: NodeKey, content: string) returns (snapshot: Snapshot)
    ensures key in snapshot.nodes && !snapshot.nodes[key].syncable
  {
    var store := new Store(digest);
    var hidden := Node(key, "", false, content);
    store.AppendNodeUpsert(hidden);
    ReplayAppended([], NodeUpsert(EnsureNodeHash(digest, hidden)));
    SyncableChangeIsLost(digest, [], hidden, true);
    store.AppendNodeUpsert(hidden.(syncable := true));
    snapshot := store.LoadSnapshot();
  }

  /** The later record takes the place of the earlier one. */
  predicate Replaces(later: Record, earlier: Record) {
    match later
    case RunUpsert(run) => earlier.RunUpsert? && earlier.run.id == run.id
    case NodeUpsert(node) => earlier.NodeUpsert? && earlier.node.key == node.key
    case RunSyncUpsert(state) =>
      earlier.RunSyncUpsert? && earlier.runSync.runId == state.runId && earlier.runSync.target == state.target
    case NodeSyncUpsert(state) =>
      earlier.NodeSyncUpsert? && earlier.nodeSync.key == state.key && earlier.nodeSync.target == state.target
  }

  predicate Holds(s: Snapshot, record: Record) {
    match record
    case RunUpsert(run) => run.id in s.runs && s.runs[run.id] == run
    case NodeUpsert(node) => node.key in s.nodes && s.nodes[node.key] == node
    case RunSyncUpsert(state) =>
      (state.runId, state.target) in s.runSyncs && s.runSyncs[(state.runId, state.target)] == state
    case NodeSyncUpsert(state) =>
      (state.key, state.target) in s.nodeSyncs && s.nodeSyncs[(state.key, state.target)] == state
  }

  lemma ApplyHolds(s: Snapshot, record: Record, earlier: Record)
    ensures Holds(Apply(s, record), record)
    ensures !Replaces(record, earlier) ==> (Holds(Apply(s, record), earlier) <==> Holds(s, earlier))
  {
  }

  /** A log's snapshot holds every record that no later one replaces, and nothing but records of the log. */
  lemma {:induction false} SnapshotHoldsLast(records: seq<Record>, record: Record)
    ensures Holds(Replay(records), record) <==> exists i :: IsLastOf(records, i, record)
  {
    if records != [] {
      var last := |records| - 1;
      SnapshotHoldsLast(records[..last], record);
      ApplyHolds(Replay(records[..last]), records[last], record);
      if Replaces(records[last], record) {
        assert Holds(Replay(records), record) <==> records[last] == record;
        assert records[last] == record ==> IsLastOf(records, last, record);
      } else {
        forall i ensures IsLastOf(records, i, record) <==> IsLastOf(records[..last], i, record) {
        }
      }
    }
  }

  /** Position i holds the record, and no later one replaces it. */
  ghost predicate IsLastOf(records: seq<Record>, i: int, record: Record) {
    0 <= i < |records| && records[i] == record && forall j :: i < j < |records| ==> !Replaces(records[j], record)
  }

  /** Dropping repeated node upserts does not change that for runs and sync states. */
  lemma StoreHoldsLast(records: seq<Record>, record: Record)
    requires !record.NodeUpsert?
    ensures Holds(Replay(Deduplicated(records)), record) <==> exists i :: IsLastOf(records, i, record)
  {
    DeduplicationAgrees(records);
    SnapshotHoldsLast(records, record);
  }
}
