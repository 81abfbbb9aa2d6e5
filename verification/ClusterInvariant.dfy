/** The inductive invariant of the cluster and its preservation by every step. */
module ClusterInvariant {
  import opened Basics
  import opened Protocol
  import opened Replicas
  import opened Cluster

  // ---------------------------------------------------------------- the invariant

  /** The entry is what its log index was handed out for. */
  ghost predicate Issued(s: State, shard: int, e: Entry) {
    (shard, e.index) in s.issued && s.issued[(shard, e.index)] == (e.requestId, e.mutation)
  }

  /** In addition the published request table binds the request to this index. */
  ghost predicate Registered(s: State, shard: int, e: Entry) {
    && Issued(s, shard, e) && e.requestId in s.meta.requestTable
    && s.meta.requestTable[e.requestId].shardId == shard && s.meta.requestTable[e.requestId].index == e.index
  }

  ghost predicate JournalOk(s: State, shard: int, r: Replica) {
    && WellFormed(r.journal)
    && (forall i :: i in r.journal.prepared ==> Issued(s, shard, r.journal.prepared[i]))
    && (forall i :: i in r.journal.prepared ==> StampBelow(r.journal.prepared[i], r))
    && (forall i :: i in r.journal.committed ==> Registered(s, shard, r.journal.prepared[i]))
  }

  ghost predicate StampBelow(e: Entry, r: Replica) {
    e.term <= r.term && e.placementEpoch <= r.placementEpoch
  }

  /** A member never runs ahead of the published placement; a node being added may hold the
      placement epoch that would be published next. */
  ghost predicate EpochBound(p: Placement, n: Node, r: Replica) {
    r.term <= p.term && r.placementEpoch <= p.placementEpoch + (if n in p.replicas then 0 else 1)
  }

  ghost predicate DisksOk(s: State) {
    forall k :: k in s.disks ==>
      k.1 in s.meta.shards && JournalOk(s, k.1, s.disks[k]) && EpochBound(s.meta.shards[k.1], k.0, s.disks[k])
  }

  ghost function CaughtUp(s: State, shard: int): set<Node>
    requires shard in s.meta.shards
  {
    set n | n in s.meta.shards[shard].replicas && At(s, n, shard).appliedIndex >= s.meta.shards[shard].committedIndex
  }

  ghost predicate MajorityCaughtUp(s: State) {
    forall shard :: shard in s.meta.shards ==> |CaughtUp(s, shard)| >= s.meta.shards[shard].Quorum()
  }

  ghost predicate IssuedOk(w: World, s: State) {
    && s.meta.shardCount > 0
    && (forall i :: i in s.meta.shards ==> s.meta.shards[i].lastLogIndex >= 0)
    && forall k :: k in s.issued ==>
      && k.0 in s.meta.shards && 1 <= k.1 <= s.meta.shards[k.0].lastLogIndex
      && s.issued[k].1 in w.submitted && k.0 == Route(s.issued[k].1.id, s.meta.shardCount)
  }

  ghost predicate RecordOk(w: World, s: State, req: string, rec: RequestRecord) {
    && (rec.shardId, rec.index) in s.issued && s.issued[(rec.shardId, rec.index)].0 == req
    && rec.checksum == w.crc(s.issued[(rec.shardId, rec.index)].1)
  }

  ghost predicate TableOk(w: World, s: State) {
    forall r :: r in s.meta.requestTable ==> RecordOk(w, s, r, s.meta.requestTable[r])
  }

  ghost predicate AckOk(s: State, a: Ack) {
    && a.requestId in s.meta.requestTable
    && s.meta.requestTable[a.requestId].shardId == a.shardId && s.meta.requestTable[a.requestId].index == a.index
  }

  ghost predicate AcksOk(s: State) {
    forall a :: a in s.acks ==> AckOk(s, a)
  }

  ghost predicate AllIn(nodes: seq<Node>, p: Placement) {
    forall i :: 0 <= i < |nodes| ==> nodes[i] in p.replicas
  }

  ghost predicate PcOk(w: World, s: State) {
    match s.pc
    case Idle => true
    case Preparing(e, todo, done) =>
      && e.shardId in s.meta.shards && Issued(s, e.shardId, e) && e.requestId != ""
      && e.requestId !in s.meta.requestTable && AllIn(todo, s.meta.shards[e.shardId])
    case Committing(e, todo, done) =>
      && e.shardId in s.meta.shards && Registered(s, e.shardId, e)
      && AllIn(todo, s.meta.shards[e.shardId])
      && (forall n :: n in done ==> n in s.meta.shards[e.shardId].replicas)
      && (forall n :: n in done ==> At(s, n, e.shardId).appliedIndex >= e.index)
    case Electing(shard, todo, candidates) =>
      && shard in s.meta.shards && AllIn(todo, s.meta.shards[shard])
      && (forall n :: n in candidates ==> n in s.meta.shards[shard].replicas)
      && (forall n :: n in candidates ==> candidates[n] == At(s, n, shard).appliedIndex)
    case Exported(shard, node, _, _, index, _, _) =>
      && Growing(s, shard, node) && index >= s.meta.shards[shard].committedIndex
    case Installed(shard, node, _, index) =>
      && Growing(s, shard, node) && At(s, node, shard).appliedIndex >= s.meta.shards[shard].committedIndex
    case Copying(shard, node, entries, _, growing) =>
      && shard in s.meta.shards
      && (forall k :: 0 <= k < |entries| ==> Registered(s, shard, entries[k]))
      && (growing ==> Growing(s, shard, node) && At(s, node, shard).appliedIndex >= s.meta.shards[shard].committedIndex)
  }

  ghost predicate Growing(s: State, shard: int, node: Node) {
    shard in s.meta.shards && node in s.meta.members && node !in s.meta.shards[shard].replicas
  }

  ghost predicate Core(w: World, s: State) {
    && Validate(w.kernel, s.meta)
    && IssuedOk(w, s) && TableOk(w, s) && AcksOk(s)
    && DisksOk(s) && MajorityCaughtUp(s)
  }

  ghost predicate Inv(w: World, s: State) {
    Core(w, s) && PcOk(w, s)
  }

  // ---------------------------------------------------------------- one replica, one operation

  /** What any durable state inside an operation may differ in from the state before it. */
  ghost predicate Evolves(r: Replica, d: Replica, op: Op) {
    && d.term >= r.term && d.placementEpoch >= r.placementEpoch && d.appliedIndex >= r.appliedIndex
    && WellFormed(d.journal)
    && (forall i :: i in d.journal.prepared ==>
          (i in r.journal.prepared && d.journal.prepared[i] == r.journal.prepared[i]) || NewIn(d, op, d.journal.prepared[i]))
    && d.journal.committed <= r.journal.committed + (if op.Commit? then {op.entry.index} else {})
    && (op.Prepare? || op.Commit? ==> d.term == r.term && d.placementEpoch == r.placementEpoch)
    && (op.Configure? || op.Install? ==>
          (d.term == r.term || d.term == op.term) && (d.placementEpoch == r.placementEpoch || d.placementEpoch == op.placementEpoch))
  }

  /** The entry was appended by this operation, under the stamp the replica holds. */
  ghost predicate NewIn(d: Replica, op: Op, e: Entry) {
    (op.Prepare? || op.Commit?) && e == op.entry && e.term == d.term && e.placementEpoch == d.placementEpoch
  }

  lemma StagesEvolve(shard: int, dimension: int, r: Replica, op: Op, d: Replica)
    requires WellFormed(r.journal)
    requires d in Stages(shard, dimension, r, op)
    ensures Evolves(r, d, op)
  {
  }

  lemma RpcStagesEvolve(s: State, n: Node, shard: int, op: Op, d: Replica)
    requires WellFormed(At(s, n, shard).journal)
    requires d in RpcStages(s, n, shard, op)
    ensures Evolves(At(s, n, shard), d, op)
  {
    var r := At(s, n, shard);
    if (n, shard) in s.open {
      StagesEvolve(shard, s.meta.dimension, r, op, d);
    } else if op.Configure? {
      var es := CommittedAfter(r.journal, r.appliedIndex);
      ReplayFrame(r, es, Reopen(r));
      if d in ReopenStages(r) {
        ReplayFrame(r, es, d);
      } else {
        StagesEvolve(shard, s.meta.dimension, Reopen(r), op, d);
      }
    }
  }

  /** An answered commit leaves the replica at or above the committed index; an answered
      installation at or above the snapshot's. */
  lemma AnsweredProgress(s: State, n: Node, shard: int, op: Op, out: Outcome)
    requires Answers(s, n, shard, op, out)
    ensures op.Commit? ==> At(AfterRpc(s, n, shard, op, out), n, shard).appliedIndex >= op.entry.index
    ensures op.Install? ==> At(AfterRpc(s, n, shard, op, out), n, shard).appliedIndex == op.index
  {
    var stages := RpcStages(s, n, shard, op);
    assert At(AfterRpc(s, n, shard, op, out), n, shard) == stages[|stages| - 1];
  }

  // ---------------------------------------------------------------- RPC steps keep the core

  /** The coordinator only sends operations its metadata justifies. */
  ghost predicate OpOk(s: State, n: Node, shard: int, op: Op) {
    && shard in s.meta.shards
    && var p := s.meta.shards[shard];
      match op
      case Configure(term, epoch) => term == p.term && epoch == p.placementEpoch + (if n in p.replicas then 0 else 1)
      case Prepare(e) => Issued(s, shard, e)
      case Commit(e) => Registered(s, shard, e)
      case Install(_, _, term, epoch, _) => term == p.term && epoch == p.placementEpoch + (if n in p.replicas then 0 else 1)
  }

  /** Nothing a replica has applied is lost and its stamps do not go back. */
  ghost predicate Grows(s: State, t: State) {
    && t.meta == s.meta && t.issued == s.issued && t.acks == s.acks
    && forall n, shard :: At(t, n, shard).appliedIndex >= At(s, n, shard).appliedIndex
  }

  lemma JournalStaysOk(s: State, n: Node, shard: int, op: Op, d: Replica)
    requires JournalOk(s, shard, At(s, n, shard)) && OpOk(s, n, shard, op)
    requires EpochBound(s.meta.shards[shard], n, At(s, n, shard))
    requires Evolves(At(s, n, shard), d, op)
    ensures JournalOk(s, shard, d) && EpochBound(s.meta.shards[shard], n, d)
  {
    var r := At(s, n, shard);
    forall i | i in d.journal.prepared
      ensures Issued(s, shard, d.journal.prepared[i]) && StampBelow(d.journal.prepared[i], d)
    {
      if i in r.journal.prepared && d.journal.prepared[i] == r.journal.prepared[i] {
        assert StampBelow(r.journal.prepared[i], r);
      }
    }
    forall i | i in d.journal.committed ensures Registered(s, shard, d.journal.prepared[i]) {
      assert Issued(s, shard, d.journal.prepared[i]);
      if i in r.journal.committed { assert Registered(s, shard, r.journal.prepared[i]); }
    }
  }

  lemma FreshOk(s: State, n: Node, shard: int)
    requires DisksOk(s) && shard in s.meta.shards
    requires s.meta.shards[shard].term > 0 && s.meta.shards[shard].placementEpoch > 0
    ensures JournalOk(s, shard, At(s, n, shard)) && EpochBound(s.meta.shards[shard], n, At(s, n, shard))
  {
    if (n, shard) in s.disks { assert (n, shard).1 == shard; }
  }

  lemma MajorityMonotone(s: State, t: State)
    requires MajorityCaughtUp(s) && Grows(s, t)
    ensures MajorityCaughtUp(t)
  {
    forall shard | shard in t.meta.shards ensures |CaughtUp(t, shard)| >= t.meta.shards[shard].Quorum() {
      SubsetCardinality(CaughtUp(s, shard), CaughtUp(t, shard));
    }
  }

  ghost predicate OneDisk(s: State, t: State, n: Node, shard: int, d: Replica) {
    && t.meta == s.meta && t.issued == s.issued && t.acks == s.acks && t.pc == s.pc
    && (t.disks == s.disks || t.disks == s.disks[(n, shard) := d])
  }

  /** The state after an RPC: at most one disk changed, to some durable state of the operation. */
  lemma AfterRpcShape(s: State, n: Node, shard: int, op: Op, out: Outcome) returns (d: Replica)
    requires WellFormed(At(s, n, shard).journal)
    ensures Evolves(At(s, n, shard), d, op)
    ensures OneDisk(s, AfterRpc(s, n, shard, op, out), n, shard, d)
  {
    var stages := RpcStages(s, n, shard, op);
    var k := if out.CrashAt? && out.stage < |stages| then out.stage else |stages| - 1;
    d := stages[k];
    RpcStagesEvolve(s, n, shard, op, d);
  }

  lemma DiskWriteKeepsDisksOk(s: State, t: State, n: Node, shard: int, d: Replica)
    requires DisksOk(s) && t.meta == s.meta && t.issued == s.issued
    requires t.disks == s.disks[(n, shard) := d]
    requires shard in s.meta.shards && JournalOk(s, shard, d) && EpochBound(s.meta.shards[shard], n, d)
    ensures DisksOk(t)
  {
    forall k | k in t.disks
      ensures k.1 in t.meta.shards && JournalOk(t, k.1, t.disks[k]) && EpochBound(t.meta.shards[k.1], k.0, t.disks[k])
    {
      JournalFrame(s, t, k.1, t.disks[k]);
    }
  }

  /** A journal stays in order when allocations and registrations are only added to. */
  lemma JournalFrame(s: State, t: State, shard: int, r: Replica)
    requires JournalOk(s, shard, r)
    requires forall k :: k in s.issued ==> k in t.issued && t.issued[k] == s.issued[k]
    requires forall q :: q in s.meta.requestTable ==> SameBinding(s, t, q)
    ensures JournalOk(t, shard, r)
  {
    forall i | i in r.journal.prepared ensures Issued(t, shard, r.journal.prepared[i]) {
      assert Issued(s, shard, r.journal.prepared[i]);
    }
    forall i | i in r.journal.committed ensures Registered(t, shard, r.journal.prepared[i]) {
      assert Registered(s, shard, r.journal.prepared[i]);
      assert SameBinding(s, t, r.journal.prepared[i].requestId);
    }
  }

  ghost predicate SameBinding(s: State, t: State, q: string) {
    && q in s.meta.requestTable && q in t.meta.requestTable
    && t.meta.requestTable[q].shardId == s.meta.requestTable[q].shardId
    && t.meta.requestTable[q].index == s.meta.requestTable[q].index
  }

  lemma RpcKeepsCore(w: World, s: State, n: Node, shard: int, op: Op, out: Outcome)
    requires Core(w, s) && OpOk(s, n, shard, op)
    ensures Core(w, AfterRpc(s, n, shard, op, out))
    ensures Grows(s, AfterRpc(s, n, shard, op, out))
    ensures AfterRpc(s, n, shard, op, out).pc == s.pc
  {
    assert ValidPlacement(shard, s.meta.shards[shard], s.meta.members.Keys);
    FreshOk(s, n, shard);
    var d := AfterRpcShape(s, n, shard, op, out);
    OneDiskKeepsCore(w, s, AfterRpc(s, n, shard, op, out), n, shard, op, d);
  }

  lemma OneDiskKeepsCore(w: World, s: State, t: State, n: Node, shard: int, op: Op, d: Replica)
    requires Core(w, s) && OpOk(s, n, shard, op) && OneDisk(s, t, n, shard, d)
    requires JournalOk(s, shard, At(s, n, shard)) && EpochBound(s.meta.shards[shard], n, At(s, n, shard))
    requires Evolves(At(s, n, shard), d, op)
    ensures Core(w, t) && Grows(s, t)
  {
    hide Validate, IssuedOk, TableOk, AcksOk, MajorityCaughtUp, JournalOk, DisksOk, Evolves, EpochBound;
    JournalStaysOk(s, n, shard, op, d);
    OneDiskGrows(s, t, n, shard, op, d);
    hide Grows;
    if t.disks != s.disks {
      DiskWriteKeepsDisksOk(s, t, n, shard, d);
    }
    CoreFrame(w, s, t);
  }

  lemma OneDiskGrows(s: State, t: State, n: Node, shard: int, op: Op, d: Replica)
    requires OneDisk(s, t, n, shard, d) && Evolves(At(s, n, shard), d, op)
    ensures Grows(s, t)
  {
    forall m, x ensures At(t, m, x).appliedIndex >= At(s, m, x).appliedIndex {
      if (m, x) == (n, shard) && t.disks != s.disks { assert At(t, m, x) == d; } else { assert At(t, m, x) == At(s, m, x); }
    }
  }

  lemma CoreFrame(w: World, s: State, t: State)
    requires Core(w, s) && Grows(s, t) && (t.disks == s.disks || DisksOk(t))
    ensures Core(w, t)
  {
    MajorityMonotone(s, t);
    if t.disks == s.disks {
      forall k | k in t.disks
        ensures k.1 in t.meta.shards && JournalOk(t, k.1, t.disks[k]) && EpochBound(t.meta.shards[k.1], k.0, t.disks[k])
      {
        JournalFrame(s, t, k.1, t.disks[k]);
      }
    }
  }
}
