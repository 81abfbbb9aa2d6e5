/** The coordinator, its replicas and the network as one state machine. The coordinator holds
    one lock, so at most one of its operations is under way; `pc` says how far it has got.
    A metadata change and its publication are one step: a crash in between loses the change
    together with the memory that held it. */
module Cluster {
  import opened Basics
  import opened Protocol
  import opened Replicas

  /** Fixed surroundings: the storage kernel, the checksum, and the mutations clients submit. */
  datatype World = World(kernel: Kernel, crc: Mutation -> int, submitted: iset<Mutation>)

  ghost predicate CollisionFree(w: World) {
    forall a, b :: a in w.submitted && b in w.submitted && w.crc(a) == w.crc(b) ==> a == b
  }

  type Key = (Node, int)

  datatype Pc =
    | Idle
    | Preparing(entry: Entry, todo: seq<Node>, done: set<Node>)
    | Committing(entry: Entry, todo: seq<Node>, done: set<Node>)
    | Electing(shard: int, todo: seq<Node>, candidates: map<Node, int>)
    | Exported(shard: int, node: Node, source: Node, rows: Collection, index: int, applied: seq<int>, configured: bool)
    | Installed(shard: int, node: Node, source: Node, index: int)
    | Copying(shard: int, node: Node, entries: seq<Entry>, prepared: bool, growing: bool)

  datatype Ack = Ack(requestId: string, shardId: int, term: int, index: int)

  /** `issued` and `acks` are history: what every log index was handed out for, and every
      `CommitResult` returned to a caller. */
  datatype State = State(
    meta: Metadata, disks: map<Key, Replica>, open: set<Key>, pc: Pc,
    issued: map<(int, int), (string, Mutation)>, acks: set<Ack>)

  /** What the network and the replica process do to one RPC. */
  datatype Outcome = Answered | AnswerLost | NotDelivered | CrashAt(stage: nat)

  datatype Step =
    | BeginWrite(requestId: string, mutation: Mutation)
    | RetryPrepared(requestId: string, mutation: Mutation)
    | AnswerDuplicate(requestId: string, mutation: Mutation)
    | PrepareRpc(outcome: Outcome)
    | EndPrepare
    | CommitRpc(outcome: Outcome)
    | EndCommit
    | BeginElection(shard: int)
    | StatusRpc(answered: bool)
    | EndElection
    | ConfigureRpc(shard: int, node: Node, outcome: Outcome)
    | BeginCatchUp(shard: int, node: Node, source: Node)
    | BeginRebalance(shard: int, node: Node, source: Node)
    | RebalanceConfigure(outcome: Outcome)
    | InstallRpc(outcome: Outcome)
    | FetchTail
    | CopyRpc(outcome: Outcome)
    | EndCopy
    | Abort
    | NodeCrash(node: Node)
    | RestartNode(node: Node, address: Address)
    | RestartCluster(members: map<Node, Address>)

  // ---------------------------------------------------------------- replicas and RPCs

  function At(s: State, node: Node, shard: int): Replica {
    if (node, shard) in s.disks then s.disks[(node, shard)] else Fresh
  }

  /** The durable states an RPC may leave behind. Configuring a shard the process has not yet
      opened first reopens its directory. */
  ghost function RpcStages(s: State, node: Node, shard: int, op: Op): (stages: seq<Replica>)
    ensures |stages| > 0
  {
    var r := At(s, node, shard);
    if (node, shard) in s.open then Stages(shard, s.meta.dimension, r, op)
    else if op.Configure? && WellFormed(r.journal) then
      ReopenStages(r) + Stages(shard, s.meta.dimension, Reopen(r), op)
    else [r]
  }

  ghost function Crash(s: State, node: Node): State {
    s.(open := set k | k in s.open && k.0 != node)
  }

  ghost function Write(s: State, node: Node, shard: int, r: Replica): State {
    s.(disks := s.disks[(node, shard) := r])
  }

  /** The state after an RPC, before the coordinator looks at the answer. */
  ghost function AfterRpc(s: State, node: Node, shard: int, op: Op, out: Outcome): State {
    var stages := RpcStages(s, node, shard, op);
    match out
    case NotDelivered => s
    case CrashAt(k) => if k < |stages| then Crash(Write(s, node, shard, stages[k]), node) else s
    case _ =>
      var s' := Write(s, node, shard, stages[|stages| - 1]);
      if op.Configure? then s'.(open := s.open + {(node, shard)}) else s'
  }

  /** The coordinator receives a positive answer. */
  ghost predicate Answers(s: State, node: Node, shard: int, op: Op, out: Outcome) {
    && out.Answered?
    && if (node, shard) in s.open then Accepts(shard, s.meta.dimension, At(s, node, shard), op)
       else op.Configure? && WellFormed(At(s, node, shard).journal) && Accepts(shard, s.meta.dimension, Reopen(At(s, node, shard)), op)
  }

  // ---------------------------------------------------------------- coordinator helpers

  /** Change one placement, advance the metadata epoch and publish. */
  function Publish(m: Metadata, p: Placement): Metadata {
    m.(shards := m.shards[p.shardId := p], epoch := m.epoch + 1)
  }

  function Record(w: World, e: Entry, status: Status): RequestRecord {
    RequestRecord(e.shardId, e.term, e.index, w.crc(e.mutation), status)
  }

  function NewEntry(w: World, p: Placement, epoch: int, index: int, requestId: string, m: Mutation): Entry {
    Entry(p.shardId, p.term, epoch, index, requestId, m, w.crc(m))
  }

  /** The first candidate in the order (highest applied index, then smallest node ID). */
  function Best(nodes: seq<Node>, c: map<Node, int>): Option<Node> {
    if nodes == [] then None
    else
      var rest := Best(nodes[1..], c);
      if nodes[0] !in c then rest
      else if rest.None? || rest.value !in c || c[nodes[0]] > c[rest.value]
           || (c[nodes[0]] == c[rest.value] && Less(nodes[0], rest.value)) then Some(nodes[0])
      else rest
  }

  ghost function Tail(s: State, source: Node, shard: int, after: int): seq<Entry> {
    var j := At(s, source, shard).journal;
    if WellFormed(j) then CommittedAfter(j, after) else []
  }

  function ShardOf(s: State, m: Mutation): int {
    if s.meta.shardCount > 0 then Route(m.id, s.meta.shardCount) else 0
  }

  // ---------------------------------------------------------------- steps

  ghost predicate Enabled(w: World, s: State, step: Step) {
    match step
    case BeginWrite(req, m) =>
      && s.pc.Idle? && req != "" && m in w.submitted && ShardOf(s, m) in s.meta.shards
      && req !in s.meta.requestTable
    case RetryPrepared(req, m) =>
      && s.pc.Idle? && m in w.submitted && ShardOf(s, m) in s.meta.shards && req in s.meta.requestTable
      && s.meta.requestTable[req].checksum == w.crc(m) && s.meta.requestTable[req].status.Prepared?
    case AnswerDuplicate(req, m) =>
      && s.pc.Idle? && m in w.submitted && req in s.meta.requestTable
      && s.meta.requestTable[req].checksum == w.crc(m) && s.meta.requestTable[req].status.Committed?
    case PrepareRpc(_) => s.pc.Preparing? && s.pc.todo != []
    case EndPrepare => s.pc.Preparing? && s.pc.todo == [] && s.pc.entry.shardId in s.meta.shards
    case CommitRpc(_) => s.pc.Committing? && s.pc.todo != []
    case EndCommit => s.pc.Committing? && s.pc.todo == [] && s.pc.entry.shardId in s.meta.shards
    case BeginElection(shard) => s.pc.Idle? && shard in s.meta.shards
    case StatusRpc(answered) =>
      s.pc.Electing? && s.pc.todo != [] && (answered ==> (s.pc.todo[0], s.pc.shard) in s.open)
    case EndElection => s.pc.Electing? && s.pc.todo == [] && s.pc.shard in s.meta.shards
    case ConfigureRpc(shard, node, _) =>
      s.pc.Idle? && shard in s.meta.shards && node in s.meta.shards[shard].replicas
    case BeginCatchUp(shard, node, source) =>
      && s.pc.Idle? && shard in s.meta.shards && node in s.meta.shards[shard].replicas
      && (node, shard) in s.open && CaughtUpSource(s, shard, source)
    case BeginRebalance(shard, node, source) =>
      && s.pc.Idle? && shard in s.meta.shards && node in s.meta.members
      && node !in s.meta.shards[shard].replicas && CaughtUpSource(s, shard, source)
    case RebalanceConfigure(_) => s.pc.Exported? && !s.pc.configured && s.pc.shard in s.meta.shards
    case InstallRpc(_) => s.pc.Exported? && s.pc.configured && s.pc.shard in s.meta.shards
    case FetchTail =>
      s.pc.Installed? && s.pc.shard in s.meta.shards && (s.pc.source, s.pc.shard) in s.open
    case CopyRpc(_) => s.pc.Copying? && s.pc.entries != []
    case EndCopy => s.pc.Copying? && s.pc.entries == [] && s.pc.shard in s.meta.shards
    case Abort => true
    case NodeCrash(_) => true
    case RestartNode(node, address) =>
      s.pc.Idle? && node in s.meta.members && ValidAddress(address)
    case RestartCluster(members) =>
      members.Keys == s.meta.members.Keys && forall n :: n in members ==> ValidAddress(members[n])
  }

  /** `_query_replica` may return this node. */
  ghost predicate CaughtUpSource(s: State, shard: int, source: Node)
    requires shard in s.meta.shards
  {
    && source in s.meta.shards[shard].replicas && (source, shard) in s.open
    && At(s, source, shard).appliedIndex >= s.meta.shards[shard].committedIndex
  }

  ghost function Next(w: World, s: State, step: Step): State
    requires Enabled(w, s, step)
  {
    match step
    case BeginWrite(req, m) => NextBeginWrite(w, s, req, m)
    case RetryPrepared(req, m) => NextRetry(w, s, req, m)
    case AnswerDuplicate(req, m) => NextDuplicate(s, req, m)
    case PrepareRpc(out) => NextPrepareRpc(s, out)
    case EndPrepare => NextEndPrepare(w, s)
    case CommitRpc(out) => NextCommitRpc(s, out)
    case EndCommit => NextEndCommit(w, s)
    case BeginElection(shard) => s.(pc := Electing(shard, s.meta.shards[shard].replicas, map[]))
    case StatusRpc(answered) => NextStatusRpc(s, answered)
    case EndElection => NextEndElection(s)
    case ConfigureRpc(shard, node, out) =>
      var p := s.meta.shards[shard];
      AfterRpc(s, node, shard, Configure(p.term, p.placementEpoch), out)
    case BeginCatchUp(shard, node, source) => NextBeginCatchUp(s, shard, node, source)
    case BeginRebalance(shard, node, source) =>
      var r := At(s, source, shard);
      s.(pc := Exported(shard, node, source, r.collection, r.appliedIndex, r.Applied(), false))
    case RebalanceConfigure(out) => NextRebalanceConfigure(s, out)
    case InstallRpc(out) => NextInstallRpc(s, out)
    case FetchTail => NextFetchTail(s)
    case CopyRpc(out) => NextCopyRpc(s, out)
    case EndCopy => NextEndCopy(s)
    case Abort => s.(pc := Idle)
    case NodeCrash(node) => Crash(s, node)
    case RestartNode(node, address) =>
      Crash(s, node).(meta := s.meta.(members := s.meta.members[node := address], epoch := s.meta.epoch + 1))
    case RestartCluster(members) =>
      s.(meta := s.meta.(members := members, epoch := s.meta.epoch + 1), open := {}, pc := Idle)
  }

  /** Allocate the next log index and publish it before anything is sent. */
  ghost function NextBeginWrite(w: World, s: State, req: string, m: Mutation): State
    requires ShardOf(s, m) in s.meta.shards
  {
    var p := s.meta.shards[ShardOf(s, m)];
    var p' := p.(lastLogIndex := p.lastLogIndex + 1);
    var e := NewEntry(w, p', p'.placementEpoch, p'.lastLogIndex, req, m);
    s.(meta := Publish(s.meta, p'), pc := Preparing(e, p.replicas, {}),
       issued := s.issued[(p.shardId, p'.lastLogIndex) := (req, m)])
  }

  /** A request that is already registered keeps its index and is stamped with the current term. */
  ghost function NextRetry(w: World, s: State, req: string, m: Mutation): State
    requires ShardOf(s, m) in s.meta.shards && req in s.meta.requestTable
  {
    var p := s.meta.shards[ShardOf(s, m)];
    var e := NewEntry(w, p, p.placementEpoch, s.meta.requestTable[req].index, req, m);
    s.(pc := Committing(e, p.replicas, {}))
  }

  ghost function NextDuplicate(s: State, req: string, m: Mutation): State
    requires req in s.meta.requestTable
  {
    var rec := s.meta.requestTable[req];
    s.(acks := s.acks + {Ack(req, ShardOf(s, m), rec.term, rec.index)})
  }

  ghost function NextPrepareRpc(s: State, out: Outcome): State
    requires s.pc.Preparing? && s.pc.todo != []
  {
    var e, n := s.pc.entry, s.pc.todo[0];
    var done := if Answers(s, n, e.shardId, Prepare(e), out) then s.pc.done + {n} else s.pc.done;
    AfterRpc(s, n, e.shardId, Prepare(e), out).(pc := Preparing(e, s.pc.todo[1..], done))
  }

  /** Without the leader or a quorum the write fails (or retries from the start); otherwise the
      request becomes durable before any commit is sent. */
  ghost function NextEndPrepare(w: World, s: State): State
    requires s.pc.Preparing? && s.pc.entry.shardId in s.meta.shards
  {
    var e := s.pc.entry;
    var p := s.meta.shards[e.shardId];
    if p.leader !in s.pc.done || |s.pc.done| < p.Quorum() then s.(pc := Idle)
    else
      s.(meta := s.meta.(requestTable := s.meta.requestTable[e.requestId := Record(w, e, Prepared)],
                         epoch := s.meta.epoch + 1),
         pc := Committing(e, p.replicas, {}))
  }

  ghost function NextCommitRpc(s: State, out: Outcome): State
    requires s.pc.Committing? && s.pc.todo != []
  {
    var e, n := s.pc.entry, s.pc.todo[0];
    var done := if Answers(s, n, e.shardId, Commit(e), out) then s.pc.done + {n} else s.pc.done;
    AfterRpc(s, n, e.shardId, Commit(e), out).(pc := Committing(e, s.pc.todo[1..], done))
  }

  ghost function NextEndCommit(w: World, s: State): State
    requires s.pc.Committing? && s.pc.entry.shardId in s.meta.shards
  {
    var e := s.pc.entry;
    var p := s.meta.shards[e.shardId];
    if |s.pc.done| < p.Quorum() then s.(pc := Idle)
    else
      var p' := p.(committedIndex := if e.index > p.committedIndex then e.index else p.committedIndex);
      var m := Publish(s.meta, p');
      s.(meta := m.(requestTable := m.requestTable[e.requestId := Record(w, e, Committed)]),
         acks := s.acks + {Ack(e.requestId, e.shardId, e.term, e.index)}, pc := Idle)
  }

  ghost function NextStatusRpc(s: State, answered: bool): State
    requires s.pc.Electing? && s.pc.todo != []
  {
    var n := s.pc.todo[0];
    var c := if answered then s.pc.candidates[n := At(s, n, s.pc.shard).appliedIndex] else s.pc.candidates;
    s.(pc := Electing(s.pc.shard, s.pc.todo[1..], c))
  }

  ghost function NextEndElection(s: State): State
    requires s.pc.Electing? && s.pc.shard in s.meta.shards
  {
    var p := s.meta.shards[s.pc.shard];
    var best := Best(p.replicas, s.pc.candidates);
    if |s.pc.candidates| < p.Quorum() || best.None? then s.(pc := Idle)
    else
      s.(meta := Publish(s.meta, p.(term := p.term + 1, placementEpoch := p.placementEpoch + 1, leader := best.value)),
         pc := Idle)
  }

  ghost function NextBeginCatchUp(s: State, shard: int, node: Node, source: Node): State
    requires shard in s.meta.shards
  {
    var p := s.meta.shards[shard];
    var tail := Tail(s, source, shard, At(s, node, shard).appliedIndex);
    s.(pc := Copying(shard, node, Restamp(tail, p.shardId, p.term, p.placementEpoch), false, false))
  }

  /** The node being added learns its placement epoch before that epoch is published. */
  ghost function NextRebalanceConfigure(s: State, out: Outcome): State
    requires s.pc.Exported? && s.pc.shard in s.meta.shards
  {
    var p := s.meta.shards[s.pc.shard];
    var op := Configure(p.term, p.placementEpoch + 1);
    AfterRpc(s, s.pc.node, s.pc.shard, op, out)
      .(pc := if Answers(s, s.pc.node, s.pc.shard, op, out) then s.pc.(configured := true) else Idle)
  }

  ghost function NextInstallRpc(s: State, out: Outcome): State
    requires s.pc.Exported? && s.pc.shard in s.meta.shards
  {
    var p := s.meta.shards[s.pc.shard];
    var op := Install(s.pc.rows, s.pc.index, p.term, p.placementEpoch + 1, s.pc.applied);
    AfterRpc(s, s.pc.node, s.pc.shard, op, out)
      .(pc := if Answers(s, s.pc.node, s.pc.shard, op, out)
              then Installed(s.pc.shard, s.pc.node, s.pc.source, s.pc.index) else Idle)
  }

  ghost function NextFetchTail(s: State): State
    requires s.pc.Installed? && s.pc.shard in s.meta.shards
  {
    var p := s.meta.shards[s.pc.shard];
    var tail := Tail(s, s.pc.source, s.pc.shard, s.pc.index);
    s.(pc := Copying(s.pc.shard, s.pc.node, Restamp(tail, p.shardId, p.term, p.placementEpoch + 1), false, true))
  }

  /** Each copied entry is first prepared and then committed on the target. */
  ghost function NextCopyRpc(s: State, out: Outcome): State
    requires s.pc.Copying? && s.pc.entries != []
  {
    var e := s.pc.entries[0];
    var op := if s.pc.prepared then Commit(e) else Prepare(e);
    var pc' := if s.pc.prepared then s.pc.(entries := s.pc.entries[1..], prepared := false) else s.pc.(prepared := true);
    AfterRpc(s, s.pc.node, s.pc.shard, op, out)
      .(pc := if Answers(s, s.pc.node, s.pc.shard, op, out) then pc' else Idle)
  }

  ghost function NextEndCopy(s: State): State
    requires s.pc.Copying? && s.pc.shard in s.meta.shards
  {
    if !s.pc.growing then s.(pc := Idle)
    else
      var p := s.meta.shards[s.pc.shard];
      s.(meta := Publish(s.meta, p.(replicas := p.replicas + [s.pc.node], placementEpoch := p.placementEpoch + 1)),
         pc := Idle)
  }

  // ---------------------------------------------------------------- initial state and runs

  /** Modular placement of a fresh cluster over its sorted node IDs. */
  function InitialPlacement(shard: int, nodes: seq<Node>, factor: int): Placement
    requires shard >= 0 && 0 < factor <= |nodes|
  {
    var replicas := seq(factor, k requires 0 <= k < factor => nodes[(shard + k) % |nodes|]);
    Placement(shard, 1, 1, replicas[0], replicas, 0, 0)
  }

  ghost predicate SortedNodes(nodes: seq<Node>) {
    forall i, j :: 0 <= i < j < |nodes| ==> Less(nodes[i], nodes[j])
  }

  ghost predicate Init(w: World, s: State, nodes: seq<Node>) {
    var m := s.meta;
    && m.clusterId != "" && m.dimension > 0 && m.shardCount > 0
    && 0 < m.replicationFactor <= |nodes|
    && SortedNodes(nodes) && Elems(nodes) == m.members.Keys
    && (forall n :: n in m.members ==> n != "" && ValidAddress(m.members[n]))
    && CanonicalConfig(w.kernel, m.collectionConfig, m.dimension)
    && m.shards == (map i | 0 <= i < m.shardCount :: InitialPlacement(i, nodes, m.replicationFactor))
    && m.epoch == 1 && m.routingVersion == ROUTING_VERSION && m.requestTable == map[]
    && s.disks == map[] && s.open == {} && s.pc == Idle && s.issued == map[] && s.acks == {}
  }

  ghost predicate Follows(w: World, s: State, t: State) {
    exists step :: Enabled(w, s, step) && t == Next(w, s, step)
  }

  /** A finite run of the cluster from a fresh start. */
  ghost predicate Run(w: World, run: seq<State>) {
    && |run| > 0
    && (exists nodes :: Init(w, run[0], nodes))
    && forall i, j :: 0 <= i < |run| && j == i + 1 && j < |run| ==> Follows(w, run[i], run[j])
  }
}
