/** Every step of the cluster keeps the invariant. */
module ClusterSteps {
  import opened Basics
  import opened Protocol
  import opened Replicas
  import opened Cluster
  import opened ClusterInvariant

  // ---------------------------------------------------------------- metadata changes

  lemma PublishKeepsValid(kernel: Kernel, m: Metadata, p: Placement)
    requires Validate(kernel, m) && p.shardId in m.shards
    requires ValidPlacement(p.shardId, p, m.members.Keys)
    ensures Validate(kernel, Publish(m, p))
  {
    var m' := Publish(m, p);
    forall i | i in m'.shards ensures ValidPlacement(i, m'.shards[i], m'.members.Keys) {
      if i != p.shardId { assert ValidPlacement(i, m.shards[i], m.members.Keys); }
    }
  }

  ghost predicate RoomGrows(p: Placement, q: Placement) {
    && q.term >= p.term && q.placementEpoch >= p.placementEpoch
    && forall n :: n in q.replicas && n !in p.replicas ==> q.placementEpoch >= p.placementEpoch + 1
  }

  lemma BoundFrame(p: Placement, q: Placement, n: Node, r: Replica)
    requires EpochBound(p, n, r) && RoomGrows(p, q)
    ensures EpochBound(q, n, r)
  {
  }

  /** A metadata step leaves disks alone, and only adds allocations and request bindings. */
  ghost predicate MetadataStep(s: State, t: State) {
    && t.disks == s.disks
    && t.meta.shards.Keys == s.meta.shards.Keys
    && (forall k :: k in s.issued ==> k in t.issued && t.issued[k] == s.issued[k])
    && (forall q :: q in s.meta.requestTable ==> SameBinding(s, t, q))
    && (forall i :: i in s.meta.shards ==> RoomGrows(s.meta.shards[i], t.meta.shards[i]))
  }

  lemma MetadataStepKeepsDisks(s: State, t: State)
    requires DisksOk(s) && MetadataStep(s, t)
    ensures DisksOk(t)
  {
    forall k | k in t.disks
      ensures k.1 in t.meta.shards && JournalOk(t, k.1, t.disks[k]) && EpochBound(t.meta.shards[k.1], k.0, t.disks[k])
    {
      JournalFrame(s, t, k.1, t.disks[k]);
      BoundFrame(s.meta.shards[k.1], t.meta.shards[k.1], k.0, t.disks[k]);
    }
  }

  ghost predicate SameQuorumView(s: State, t: State, shard: int) {
    && shard in s.meta.shards && shard in t.meta.shards
    && t.meta.shards[shard].replicas == s.meta.shards[shard].replicas
    && t.meta.shards[shard].committedIndex == s.meta.shards[shard].committedIndex
  }

  lemma SameQuorumKeepsMajority(s: State, t: State, shard: int)
    requires MajorityCaughtUp(s) && t.disks == s.disks && SameQuorumView(s, t, shard)
    ensures |CaughtUp(t, shard)| >= t.meta.shards[shard].Quorum()
  {
    assert CaughtUp(t, shard) == CaughtUp(s, shard);
  }

  lemma SameQuorumsKeepMajority(s: State, t: State)
    requires MajorityCaughtUp(s) && t.disks == s.disks
    requires forall i :: i in t.meta.shards ==> SameQuorumView(s, t, i)
    ensures MajorityCaughtUp(t)
  {
    forall i | i in t.meta.shards ensures |CaughtUp(t, i)| >= t.meta.shards[i].Quorum() {
      SameQuorumKeepsMajority(s, t, i);
    }
  }

  lemma RecordKeepsTable(w: World, s: State, t: State, e: Entry, status: Status)
    requires TableOk(w, s) && Issued(s, e.shardId, e) && t.issued == s.issued
    requires t.meta.requestTable == s.meta.requestTable[e.requestId := Record(w, e, status)]
    ensures TableOk(w, t)
  {
    forall r | r in t.meta.requestTable ensures RecordOk(w, t, r, t.meta.requestTable[r]) {
      if r != e.requestId { assert RecordOk(w, s, r, s.meta.requestTable[r]); }
    }
  }

  lemma RecordKeepsValid(kernel: Kernel, m: Metadata, req: string, rec: RequestRecord, epoch: int)
    requires Validate(kernel, m) && req != "" && epoch > 0
    ensures Validate(kernel, m.(requestTable := m.requestTable[req := rec], epoch := epoch))
  {
  }

  lemma IssuedFrame(w: World, s: State, t: State)
    requires IssuedOk(w, s) && t.issued == s.issued && t.meta.shardCount == s.meta.shardCount
    requires t.meta.shards.Keys == s.meta.shards.Keys
    requires forall i :: i in s.meta.shards ==> t.meta.shards[i].lastLogIndex == s.meta.shards[i].lastLogIndex
    ensures IssuedOk(w, t)
  {
  }

  lemma TableFrame(w: World, s: State, t: State)
    requires TableOk(w, s) && t.meta.requestTable == s.meta.requestTable
    requires forall k :: k in s.issued ==> k in t.issued && t.issued[k] == s.issued[k]
    ensures TableOk(w, t)
  {
    forall r | r in t.meta.requestTable ensures RecordOk(w, t, r, t.meta.requestTable[r]) {
      assert RecordOk(w, s, r, s.meta.requestTable[r]);
    }
  }

  lemma PlacementOf(w: World, s: State, shard: int)
    requires Core(w, s) && shard in s.meta.shards
    ensures ValidPlacement(shard, s.meta.shards[shard], s.meta.members.Keys)
    ensures s.meta.shards[shard].lastLogIndex >= 0 && s.meta.epoch > 0
  {
  }

  lemma RegisteredFacts(w: World, s: State, shard: int, e: Entry)
    requires Core(w, s) && Registered(s, shard, e)
    ensures e.requestId != "" && shard in s.meta.shards && 1 <= e.index <= s.meta.shards[shard].lastLogIndex
  {
    assert (shard, e.index) in s.issued;
  }

  // ---------------------------------------------------------------- writes

  lemma BeginWriteKeeps(w: World, s: State, req: string, m: Mutation)
    requires Inv(w, s) && m in w.submitted && ShardOf(s, m) in s.meta.shards
    requires req != "" && req !in s.meta.requestTable
    ensures Inv(w, NextBeginWrite(w, s, req, m))
  {
    hide Validate, IssuedOk, TableOk, AcksOk, DisksOk, MajorityCaughtUp;
    PlacementOf(w, s, ShardOf(s, m));
    var t := NextBeginWrite(w, s, req, m);
    PublishKeepsValid(w.kernel, s.meta, t.meta.shards[ShardOf(s, m)]);
    NewIndexIsFresh(w, s, req, m);
    TableFrame(w, s, t);
    MetadataStepKeepsDisks(s, t);
    AcksKept(s, t);
    SameQuorumsKeepMajority(s, t);
  }

  lemma NewIndexIsFresh(w: World, s: State, req: string, m: Mutation)
    requires IssuedOk(w, s) && m in w.submitted && ShardOf(s, m) in s.meta.shards
    requires s.meta.shards[ShardOf(s, m)].shardId == ShardOf(s, m)
    ensures (ShardOf(s, m), s.meta.shards[ShardOf(s, m)].lastLogIndex + 1) !in s.issued
    ensures IssuedOk(w, NextBeginWrite(w, s, req, m))
  {
  }

  /** The checksum ties a retried mutation to the one its index was handed out for. */
  lemma SameMutation(w: World, s: State, req: string, m: Mutation)
    requires CollisionFree(w) && Core(w, s) && m in w.submitted
    requires req in s.meta.requestTable && s.meta.requestTable[req].checksum == w.crc(m)
    ensures var rec := s.meta.requestTable[req];
      && rec.shardId == ShardOf(s, m) && (rec.shardId, rec.index) in s.issued
      && s.issued[(rec.shardId, rec.index)] == (req, m)
  {
    var rec := s.meta.requestTable[req];
    assert RecordOk(w, s, req, rec);
    var k := (rec.shardId, rec.index);
    assert k in s.issued && s.issued[k].1 in w.submitted && k.0 == Route(s.issued[k].1.id, s.meta.shardCount);
    assert s.issued[k].1 == m;
  }

  lemma RetryKeeps(w: World, s: State, req: string, m: Mutation)
    requires CollisionFree(w) && Inv(w, s) && m in w.submitted && ShardOf(s, m) in s.meta.shards
    requires req in s.meta.requestTable && s.meta.requestTable[req].checksum == w.crc(m)
    ensures Inv(w, NextRetry(w, s, req, m))
  {
    SameMutation(w, s, req, m);
    PlacementOf(w, s, ShardOf(s, m));
    hide Core;
    PcChangeKeepsCore(w, s, NextRetry(w, s, req, m));
  }

  lemma DuplicateKeeps(w: World, s: State, req: string, m: Mutation)
    requires CollisionFree(w) && Inv(w, s) && s.pc.Idle? && m in w.submitted
    requires req in s.meta.requestTable && s.meta.requestTable[req].checksum == w.crc(m)
    ensures Inv(w, NextDuplicate(s, req, m))
  {
    hide Validate, IssuedOk, TableOk, AcksOk, DisksOk, MajorityCaughtUp;
    var t := NextDuplicate(s, req, m);
    SameMutation(w, s, req, m);
    IssuedFrame(w, s, t);
    TableFrame(w, s, t);
    NewAckKeeps(s, t, Ack(req, ShardOf(s, m), s.meta.requestTable[req].term, s.meta.requestTable[req].index));
    MetadataStepKeepsDisks(s, t);
    SameQuorumsKeepMajority(s, t);
  }

  lemma PrepareRpcKeeps(w: World, s: State, out: Outcome)
    requires Inv(w, s) && s.pc.Preparing? && s.pc.todo != []
    ensures Inv(w, NextPrepareRpc(s, out))
  {
    hide Core;
    var e, n := s.pc.entry, s.pc.todo[0];
    RpcKeepsCore(w, s, n, e.shardId, Prepare(e), out);
    hide AfterRpc, Answers;
    PcChangeKeepsCore(w, AfterRpc(s, n, e.shardId, Prepare(e), out), NextPrepareRpc(s, out));
  }

  lemma PcChangeKeepsCore(w: World, s: State, t: State)
    requires Core(w, s) && t == s.(pc := t.pc)
    ensures Core(w, t)
  {
    CoreFrame(w, s, t);
  }

  /** Binding a request to its index, with a change of at most the committed index. */
  lemma RegisterKeepsCore(w: World, s: State, t: State, e: Entry, status: Status, p: Placement)
    requires Core(w, s) && e.shardId in s.meta.shards && Issued(s, e.shardId, e) && e.requestId != ""
    requires e.requestId in s.meta.requestTable ==> Registered(s, e.shardId, e)
    requires ValidPlacement(e.shardId, p, s.meta.members.Keys)
    requires p == s.meta.shards[e.shardId].(committedIndex := p.committedIndex)
    requires t.disks == s.disks && t.issued == s.issued
    requires t.meta == Publish(s.meta, p).(requestTable := s.meta.requestTable[e.requestId := Record(w, e, status)])
    requires MajorityCaughtUp(t) && AcksOk(t)
    ensures Core(w, t)
  {
    hide Validate, IssuedOk, TableOk, AcksOk, DisksOk, MajorityCaughtUp, ValidPlacement, JournalOk;
    PlacementOf(w, s, e.shardId);
    PublishKeepsValid(w.kernel, s.meta, p);
    RecordKeepsValid(w.kernel, Publish(s.meta, p), e.requestId, Record(w, e, status), s.meta.epoch + 1);
    RecordKeepsTable(w, s, t, e, status);
    IssuedFrame(w, s, t);
    MetadataStepKeepsDisks(s, t);
  }

  lemma EndPrepareKeeps(w: World, s: State)
    requires Inv(w, s) && s.pc.Preparing? && s.pc.todo == []
    ensures Inv(w, NextEndPrepare(w, s))
  {
    hide Validate, IssuedOk, TableOk, AcksOk, DisksOk, MajorityCaughtUp;
    var e := s.pc.entry;
    var t := NextEndPrepare(w, s);
    PlacementOf(w, s, e.shardId);
    if t.pc.Idle? {
      PcChangeKeepsCore(w, s, t);
    } else {
      AcksKept(s, t);
      SameQuorumsKeepMajority(s, t);
      assert s.meta.shards[e.shardId := s.meta.shards[e.shardId]] == s.meta.shards;
      RegisterKeepsCore(w, s, t, e, Prepared, s.meta.shards[e.shardId]);
    }
  }

  lemma AcksKept(s: State, t: State)
    requires AcksOk(s) && t.acks == s.acks
    requires forall q :: q in s.meta.requestTable ==> SameBinding(s, t, q)
    ensures AcksOk(t)
  {
    forall a | a in t.acks ensures AckOk(t, a) {
      assert AckOk(s, a) && SameBinding(s, t, a.requestId);
    }
  }

  lemma CommitRpcKeeps(w: World, s: State, out: Outcome)
    requires Inv(w, s) && s.pc.Committing? && s.pc.todo != []
    ensures Inv(w, NextCommitRpc(s, out))
  {
    hide Core;
    var e, n := s.pc.entry, s.pc.todo[0];
    RpcKeepsCore(w, s, n, e.shardId, Commit(e), out);
    if Answers(s, n, e.shardId, Commit(e), out) { AnsweredProgress(s, n, e.shardId, Commit(e), out); }
    hide AfterRpc, Answers;
    CommitAnswerKeeps(w, s, AfterRpc(s, n, e.shardId, Commit(e), out), n, Answers(s, n, e.shardId, Commit(e), out));
  }

  lemma CommitAnswerKeeps(w: World, s: State, u: State, n: Node, answered: bool)
    requires Inv(w, s) && s.pc.Committing? && s.pc.todo != [] && n == s.pc.todo[0]
    requires Core(w, u) && Grows(s, u)
    requires answered ==> At(u, n, s.pc.entry.shardId).appliedIndex >= s.pc.entry.index
    ensures Inv(w, u.(pc := Committing(s.pc.entry, s.pc.todo[1..], if answered then s.pc.done + {n} else s.pc.done)))
  {
    hide Core;
    var e := s.pc.entry;
    var t := u.(pc := Committing(e, s.pc.todo[1..], if answered then s.pc.done + {n} else s.pc.done));
    PcChangeKeepsCore(w, u, t);
    forall x | x in t.pc.done ensures At(t, x, e.shardId).appliedIndex >= e.index {
      if x in s.pc.done { assert At(u, x, e.shardId).appliedIndex >= At(s, x, e.shardId).appliedIndex; }
    }
  }

  lemma EndCommitKeeps(w: World, s: State)
    requires Inv(w, s) && s.pc.Committing? && s.pc.todo == []
    ensures Inv(w, NextEndCommit(w, s))
  {
    hide Validate, IssuedOk, TableOk, AcksOk, DisksOk, MajorityCaughtUp;
    var t := NextEndCommit(w, s);
    if |s.pc.done| < s.meta.shards[s.pc.entry.shardId].Quorum() {
      PcChangeKeepsCore(w, s, t);
    } else {
      PlacementOf(w, s, s.pc.entry.shardId);
      CommittedKeeps(w, s, t, s.pc.entry, s.pc.done);
    }
  }

  lemma CommittedKeeps(w: World, s: State, t: State, e: Entry, done: set<Node>)
    requires Core(w, s) && e.shardId in s.meta.shards && Registered(s, e.shardId, e)
    requires forall n :: n in done ==> n in s.meta.shards[e.shardId].replicas && At(s, n, e.shardId).appliedIndex >= e.index
    requires |done| >= s.meta.shards[e.shardId].Quorum() && s.meta.shards[e.shardId].shardId == e.shardId
    requires var p := s.meta.shards[e.shardId];
      var p' := p.(committedIndex := if e.index > p.committedIndex then e.index else p.committedIndex);
      t == s.(meta := Publish(s.meta, p').(requestTable := s.meta.requestTable[e.requestId := Record(w, e, Committed)]),
              acks := s.acks + {Ack(e.requestId, e.shardId, e.term, e.index)}, pc := Idle)
    ensures Core(w, t)
  {
    hide Validate, IssuedOk, TableOk, AcksOk, DisksOk, MajorityCaughtUp;
    PlacementOf(w, s, e.shardId);
    RegisteredFacts(w, s, e.shardId, e);
    CommitKeepsMajority(s, t, e, done);
    NewAckKeeps(s, t, Ack(e.requestId, e.shardId, e.term, e.index));
    RegisterKeepsCore(w, s, t, e, Committed, t.meta.shards[e.shardId]);
  }

  lemma NewAckKeeps(s: State, t: State, ack: Ack)
    requires AcksOk(s) && t.acks == s.acks + {ack} && AckOk(t, ack)
    requires forall q :: q in s.meta.requestTable ==> SameBinding(s, t, q)
    ensures AcksOk(t)
  {
    forall a | a in t.acks ensures AckOk(t, a) {
      if a in s.acks { assert AckOk(s, a) && SameBinding(s, t, a.requestId); }
    }
  }

  /** A commit quorum at the new index is a caught-up majority for it. */
  lemma CommitKeepsMajority(s: State, t: State, e: Entry, done: set<Node>)
    requires MajorityCaughtUp(s) && t.disks == s.disks && t.meta.shards.Keys == s.meta.shards.Keys && e.shardId in s.meta.shards
    requires forall i :: i in s.meta.shards ==> t.meta.shards[i].replicas == s.meta.shards[i].replicas
    requires forall i :: i in s.meta.shards ==>
      || t.meta.shards[i].committedIndex == s.meta.shards[i].committedIndex
      || (i == e.shardId && t.meta.shards[i].committedIndex == e.index)
    requires forall n :: n in done ==> n in s.meta.shards[e.shardId].replicas && At(s, n, e.shardId).appliedIndex >= e.index
    requires |done| >= s.meta.shards[e.shardId].Quorum()
    ensures MajorityCaughtUp(t)
  {
    forall i | i in t.meta.shards ensures |CaughtUp(t, i)| >= t.meta.shards[i].Quorum() {
      if t.meta.shards[i].committedIndex == s.meta.shards[i].committedIndex {
        SameQuorumKeepsMajority(s, t, i);
      } else {
        assert done <= CaughtUp(t, i);
        SubsetCardinality(done, CaughtUp(t, i));
      }
    }
  }
}
