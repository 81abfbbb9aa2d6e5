/** Values of the distributed protocol: mutations, replicated entries, shard placements,
    cluster metadata with its validity rule, and the in-memory form of a replica journal. */
module Protocol {
  import opened Basics

  type Node = string

  // ---------------------------------------------------------------- mutations and entries

  datatype SparseElement = SparseElement(termId: int, weight: real)
  datatype PayloadValue = Text(text: string) | Whole(whole: int) | Number(number: real) | Flag(flag: bool)
  datatype PayloadField = PayloadField(name: string, value: PayloadValue)

  datatype Mutation =
    | Upsert(id: int, vector: seq<real>, fields: seq<PayloadField>, sparse: seq<SparseElement>)
    | Delete(id: int)

  /** `validate_replicated_mutation`; finiteness is carried by the type `real`. */
  predicate ValidMutation(m: Mutation, dimension: Option<int>) {
    m.Delete? || (
      && m.vector != []
      && (dimension.Some? ==> |m.vector| == dimension.value)
      && (forall i :: 0 <= i < |m.fields| ==> m.fields[i].name != "")
      && (forall i, j :: 0 <= i < j < |m.fields| ==> m.fields[i].name != m.fields[j].name)
      && (forall i :: 0 <= i < |m.sparse| ==> m.sparse[i].termId >= 0)
      && (forall i, j :: 0 <= i < j < |m.sparse| ==> m.sparse[i].termId != m.sparse[j].termId))
  }

  datatype Entry = Entry(
    shardId: int, term: int, placementEpoch: int, index: int,
    requestId: string, mutation: Mutation, checksum: int)

  /** The same write under another stamp. */
  function Stamped(e: Entry, shard: int, term: int, epoch: int): Entry {
    e.(shardId := shard, term := term, placementEpoch := epoch)
  }

  function Restamp(es: seq<Entry>, shard: int, term: int, epoch: int): (r: seq<Entry>)
    ensures |r| == |es| && forall k :: 0 <= k < |es| ==> r[k] == Stamped(es[k], shard, term, epoch)
  {
    seq(|es|, k requires 0 <= k < |es| => Stamped(es[k], shard, term, epoch))
  }

  // ---------------------------------------------------------------- replica journal

  datatype Journal = Journal(prepared: map<int, Entry>, committed: set<int>, snapshotIndex: int)

  const EmptyJournal := Journal(map[], {}, 0)

  /** `ReplicaJournal.prepare`: an index already held must carry the same checksum, and is
      then left alone. */
  function JournalPrepare(j: Journal, e: Entry): Result<Journal> {
    if e.index in j.prepared then
      if j.prepared[e.index].checksum != e.checksum then Err else Ok(j)
    else
      Ok(j.(prepared := j.prepared[e.index := e]))
  }

  function JournalCommit(j: Journal, index: int): Result<Journal> {
    if index !in j.prepared then Err else Ok(j.(committed := j.committed + {index}))
  }

  ghost predicate WellFormed(j: Journal) {
    && j.committed <= j.prepared.Keys
    && forall i :: i in j.prepared ==> j.prepared[i].index == i
  }

  ghost function IndicesAfter(j: Journal, index: int): set<int> {
    set i | i in j.committed && i > index
  }

  /** The prepared entries at a list of indices. */
  ghost function EntriesAt(j: Journal, indices: seq<int>): (es: seq<Entry>)
    requires forall k :: 0 <= k < |indices| ==> indices[k] in j.prepared
    ensures |es| == |indices|
    ensures forall k :: 0 <= k < |es| ==> es[k] == j.prepared[indices[k]]
  {
    seq(|indices|, k requires 0 <= k < |indices| => j.prepared[indices[k]])
  }

  /** `committed_after`: committed entries above an index, in index order. */
  ghost function CommittedAfter(j: Journal, index: int): (es: seq<Entry>)
    requires WellFormed(j)
    ensures forall k :: 0 <= k < |es| ==>
      es[k].index in j.committed && es[k].index > index && es[k] == j.prepared[es[k].index]
    ensures forall i, k :: 0 <= i < k < |es| ==> es[i].index < es[k].index
    ensures forall i :: i in j.committed && i > index ==> exists k :: 0 <= k < |es| && es[k].index == i
  {
    var indices := SortedSeq(IndicesAfter(j, index));
    assert forall k :: 0 <= k < |indices| ==> indices[k] in indices;
    var es := EntriesAt(j, indices);
    assert forall i :: i in j.committed && i > index ==> i in indices;
    es
  }

  // ---------------------------------------------------------------- cluster metadata

  datatype Json =
    | Null | Bool(b: bool) | Int(n: int) | Float(r: real) | Str(s: string)
    | Arr(items: seq<Json>) | Obj(members: map<string, Json>)

  datatype Address = Address(host: string, port: int)

  datatype Placement = Placement(
    shardId: int, term: int, placementEpoch: int, leader: Node, replicas: seq<Node>,
    lastLogIndex: int, committedIndex: int)
  {
    function Quorum(): int { |replicas| / 2 + 1 }
  }

  datatype Status = Prepared | Committed
  datatype RequestRecord = RequestRecord(shardId: int, term: int, index: int, checksum: int, status: Status)

  const ROUTING_VERSION := 2

  datatype Metadata = Metadata(
    clusterId: string, dimension: int, shardCount: int, replicationFactor: int, epoch: int,
    members: map<Node, Address>, shards: map<int, Placement>, collectionConfig: map<string, Json>,
    requestTable: map<string, RequestRecord>, routingVersion: int)

  const CONFIG_INTEGERS := {
    "dimension", "m", "m0", "ef_construction", "default_ef_search", "max_ef_search", "max_level",
    "rebuild_inactive_percent", "delta_max_points", "level_seed", "fingerprint" }

  const CONFIG_FIELDS := CONFIG_INTEGERS + {"ann_metric", "scalar_kind"}

  /** The storage kernel's answer to `validate_collection_config`: whether a configuration is
      already canonical, and the default for a dimension. */
  datatype Kernel = Kernel(canonical: map<string, Json> -> bool, legacyDefault: int -> Option<map<string, Json>>)

  /** `canonical_collection_config` returns rather than raises. */
  predicate CanonicalConfig(kernel: Kernel, config: map<string, Json>, dimension: int) {
    && config.Keys == CONFIG_FIELDS
    && (forall f :: f in CONFIG_INTEGERS ==> config[f].Int?)
    && config["ann_metric"].Str? && config["scalar_kind"].Str?
    && config["dimension"] == Int(dimension)
    && kernel.canonical(config)
  }

  predicate ValidAddress(a: Address) {
    a.host != "" && 0 < a.port <= 65535
  }

  predicate ValidPlacement(shard: int, p: Placement, members: set<Node>) {
    && p.shardId == shard && p.term > 0
    && p.placementEpoch > 0
    && NoDup(p.replicas)
    && p.leader in p.replicas
    && |p.replicas| >= p.Quorum()
    && p.committedIndex <= p.lastLogIndex
    && (forall n :: n in p.replicas ==> n in members)
  }

  /** `ClusterMetadata.validate` returns rather than raises; checks that only concern dynamic
      Python types hold by construction here. */
  predicate Validate(kernel: Kernel, m: Metadata) {
    && m.clusterId != ""
    && m.dimension > 0 && m.shardCount > 0
    && 0 < m.replicationFactor <= |m.members|
    && m.routingVersion == ROUTING_VERSION && m.epoch > 0
    && CanonicalConfig(kernel, m.collectionConfig, m.dimension)
    && (forall n :: n in m.members ==> n != "" && ValidAddress(m.members[n]))
    && (forall i :: 0 <= i < m.shardCount ==> i in m.shards)
    && (forall i :: i in m.shards ==> 0 <= i < m.shardCount)
    && (forall i :: i in m.shards ==> ValidPlacement(i, m.shards[i], m.members.Keys))
    && (forall r :: r in m.requestTable ==> r != "")
  }

  /** `route`: the signed point ID read as unsigned 64-bit, modulo the shard count. */
  function Route(pointId: int, shardCount: int): (shard: int)
    requires shardCount > 0
    ensures 0 <= shard < shardCount
  {
    (pointId % 0x1_0000_0000_0000_0000) % shardCount
  }
}
