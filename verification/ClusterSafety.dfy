/** Safety of whole cluster runs: writes, failures, elections, catch-up, added replicas and
    restarts in any order. */
module ClusterSafety {
  import opened Protocol
  import opened Replicas
  import opened Cluster
  import opened ClusterInvariant
  import opened ClusterSteps
  import opened ClusterReconfiguration

  // ---------------------------------------------------------------- the invariant over runs

  lemma WriteStepKeepsInv(w: World, s: State, step: Step)
    requires CollisionFree(w) && Inv(w, s) && Enabled(w, s, step)
    requires step.BeginWrite? || step.RetryPrepared? || step.AnswerDuplicate? || step.PrepareRpc?
          || step.EndPrepare? || step.CommitRpc? || step.EndCommit?
    ensures Inv(w, Next(w, s, step))
  {
    hide Inv;
    match step
    case BeginWrite(req, m) => BeginWriteKeeps(w, s, req, m);
    case RetryPrepared(req, m) => RetryKeeps(w, s, req, m);
    case AnswerDuplicate(req, m) => DuplicateKeeps(w, s, req, m);
    case PrepareRpc(out) => PrepareRpcKeeps(w, s, out);
    case EndPrepare => EndPrepareKeeps(w, s);
    case CommitRpc(out) => CommitRpcKeeps(w, s, out);
    case EndCommit => EndCommitKeeps(w, s);
  }

  lemma StepKeepsInv(w: World, s: State, step: Step)
    requires CollisionFree(w) && Inv(w, s) && Enabled(w, s, step)
    ensures Inv(w, Next(w, s, step))
  {
    hide Inv;
    match step
    case BeginElection(shard) => BeginElectionKeeps(w, s, shard);
    case StatusRpc(answered) => StatusRpcKeeps(w, s, answered);
    case EndElection => EndElectionKeeps(w, s);
    case ConfigureRpc(shard, n, out) => ConfigureRpcKeeps(w, s, shard, n, out);
    case BeginCatchUp(shard, n, source) => BeginCatchUpKeeps(w, s, shard, n, source);
    case BeginRebalance(shard, n, source) => BeginRebalanceKeeps(w, s, shard, n, source);
    case RebalanceConfigure(out) => RebalanceConfigureKeeps(w, s, out);
    case InstallRpc(out) => InstallRpcKeeps(w, s, out);
    case FetchTail => FetchTailKeeps(w, s);
    case CopyRpc(out) => CopyRpcKeeps(w, s, out);
    case EndCopy => EndCopyKeeps(w, s);
    case Abort => AbortKeeps(w, s);
    case NodeCrash(n) => OpenChangeKeeps(w, s, Crash(s, n));
    case RestartNode(n, address) => RestartNodeKeeps(w, s, n, address);
    case RestartCluster(members) => RestartKeeps(w, s, Next(w, s, step));
    case _ => WriteStepKeepsInv(w, s, step);
  }

  lemma {:induction false} ReachableInv(w: World, run: seq<State>, i: nat)
    requires CollisionFree(w) && Run(w, run) && i < |run|
    ensures Inv(w, run[i])
  {
    hide Inv, Enabled, Next;
    if i == 0 {
      var nodes :| Init(w, run[0], nodes);
      InitKeeps(w, run[0], nodes);
    } else {
      ReachableInv(w, run, i - 1);
      assert Follows(w, run[i - 1], run[i]);
      var step :| Enabled(w, run[i - 1], step) && run[i] == Next(w, run[i - 1], step);
      StepKeepsInv(w, run[i - 1], step);
    }
  }

  // ---------------------------------------------------------------- what only ever grows

  ghost predicate PlacementLeads(p: Placement, q: Placement) {
    && p.term <= q.term && (p.term == q.term ==> p.leader == q.leader)
    && p.placementEpoch <= q.placementEpoch
    && p.lastLogIndex <= q.lastLogIndex && p.committedIndex <= q.committedIndex
    && p.replicas <= q.replicas
  }

  ghost predicate MetadataLeads(m: Metadata, m': Metadata) {
    && m.epoch <= m'.epoch && (m.epoch == m'.epoch ==> m == m')
    && m'.shards.Keys == m.shards.Keys
    && forall i :: i in m.shards ==> PlacementLeads(m.shards[i], m'.shards[i])
  }

  /** Applied index and stamps never go back, and an entry that was not there before carries a
      stamp at least as new as the replica's. */
  ghost predicate ReplicaLeads(r: Replica, d: Replica) {
    && r.appliedIndex <= d.appliedIndex && r.term <= d.term && r.placementEpoch <= d.placementEpoch
    && forall i :: i in d.journal.prepared ==>
      || (i in r.journal.prepared && d.journal.prepared[i] == r.journal.prepared[i])
      || StampFrom(r, d.journal.prepared[i])
  }

  ghost predicate StampFrom(r: Replica, e: Entry) {
    r.term <= e.term && r.placementEpoch <= e.placementEpoch
  }

  ghost predicate HistoryLeads(s: State, t: State) {
    && (forall k :: k in s.issued ==> k in t.issued && t.issued[k] == s.issued[k])
    && (forall q :: q in s.meta.requestTable ==> SameBinding(s, t, q))
    && s.acks <= t.acks
  }

  ghost predicate DisksLead(s: State, t: State) {
    forall n, shard :: ReplicaLeads(At(s, n, shard), At(t, n, shard))
  }

  ghost predicate Leads(s: State, t: State) {
    MetadataLeads(s.meta, t.meta) && HistoryLeads(s, t) && DisksLead(s, t)
  }

  lemma ReplicaLeadsTransitive(a: Replica, b: Replica, c: Replica)
    requires ReplicaLeads(a, b) && ReplicaLeads(b, c)
    ensures ReplicaLeads(a, c)
  {
  }

  lemma LeadsTransitive(a: State, b: State, c: State)
    requires Leads(a, b) && Leads(b, c)
    ensures Leads(a, c)
  {
    forall i | i in a.meta.shards ensures PlacementLeads(a.meta.shards[i], c.meta.shards[i]) {
      assert PlacementLeads(a.meta.shards[i], b.meta.shards[i]) && PlacementLeads(b.meta.shards[i], c.meta.shards[i]);
    }
    forall q | q in a.meta.requestTable ensures SameBinding(a, c, q) {
      assert SameBinding(a, b, q) && SameBinding(b, c, q);
    }
    forall n, shard ensures ReplicaLeads(At(a, n, shard), At(c, n, shard)) {
      ReplicaLeadsTransitive(At(a, n, shard), At(b, n, shard), At(c, n, shard));
    }
  }

  lemma EvolvesLeads(r: Replica, d: Replica, op: Op)
    requires Evolves(r, d, op)
    ensures ReplicaLeads(r, d)
  {
    forall i | i in d.journal.prepared
      ensures (i in r.journal.prepared && d.journal.prepared[i] == r.journal.prepared[i]) || StampFrom(r, d.journal.prepared[i])
    {
    }
  }

  lemma OneDiskLeads(s: State, t: State, n: Node, shard: int, op: Op, d: Replica)
    requires Evolves(At(s, n, shard), d, op)
    requires OneDisk(s, t.(pc := s.pc), n, shard, d)
    ensures Leads(s, t)
  {
    EvolvesLeads(At(s, n, shard), d, op);
    hide Evolves;
    forall x, i ensures ReplicaLeads(At(s, x, i), At(t, x, i)) {
      if (x, i) == (n, shard) && t.disks != s.disks { assert At(t, x, i) == d; } else { assert At(t, x, i) == At(s, x, i); }
    }
  }

  lemma RpcLeads(w: World, s: State, n: Node, shard: int, op: Op, out: Outcome, t: State)
    requires Core(w, s) && shard in s.meta.shards
    requires t == AfterRpc(s, n, shard, op, out).(pc := t.pc)
    ensures Leads(s, t)
  {
    hide Validate, IssuedOk, TableOk, AcksOk, MajorityCaughtUp, DisksOk, AfterRpc, Evolves, Leads;
    PlacementOf(w, s, shard);
    FreshOk(s, n, shard);
    var d := AfterRpcShape(s, n, shard, op, out);
    OneDiskLeads(s, t, n, shard, op, d);
  }

  lemma MetadataStepLeads(s: State, t: State)
    requires t.disks == s.disks && MetadataLeads(s.meta, t.meta) && HistoryLeads(s, t)
    ensures Leads(s, t)
  {
    forall n, shard ensures ReplicaLeads(At(s, n, shard), At(t, n, shard)) { assert At(t, n, shard) == At(s, n, shard); }
  }

  lemma BeginWriteLeads(w: World, s: State, req: string, m: Mutation)
    requires Inv(w, s) && m in w.submitted && ShardOf(s, m) in s.meta.shards
    ensures Leads(s, NextBeginWrite(w, s, req, m))
  {
    hide Validate, IssuedOk, TableOk, AcksOk, DisksOk, MajorityCaughtUp, JournalOk;
    PlacementOf(w, s, ShardOf(s, m));
    NewIndexIsFresh(w, s, req, m);
    MetadataStepLeads(s, NextBeginWrite(w, s, req, m));
  }

  lemma EndPrepareLeads(w: World, s: State)
    requires Inv(w, s) && s.pc.Preparing?
    ensures Leads(s, NextEndPrepare(w, s))
  {
    hide Validate, IssuedOk, TableOk, AcksOk, DisksOk, MajorityCaughtUp, JournalOk;
    MetadataStepLeads(s, NextEndPrepare(w, s));
  }

  lemma EndCommitLeads(w: World, s: State)
    requires Inv(w, s) && s.pc.Committing?
    ensures Leads(s, NextEndCommit(w, s))
  {
    hide Validate, IssuedOk, TableOk, AcksOk, DisksOk, MajorityCaughtUp, JournalOk;
    PlacementOf(w, s, s.pc.entry.shardId);
    MetadataStepLeads(s, NextEndCommit(w, s));
  }

  lemma ElectionLeads(w: World, s: State)
    requires Inv(w, s) && s.pc.Electing?
    ensures Leads(s, NextEndElection(s))
  {
    hide Validate, IssuedOk, TableOk, AcksOk, DisksOk, MajorityCaughtUp, Best, JournalOk;
    PlacementOf(w, s, s.pc.shard);
    MetadataStepLeads(s, NextEndElection(s));
  }

  lemma CopyLeads(w: World, s: State)
    requires Inv(w, s) && s.pc.Copying?
    ensures Leads(s, NextEndCopy(s))
  {
    hide Validate, IssuedOk, TableOk, AcksOk, DisksOk, MajorityCaughtUp, JournalOk;
    PlacementOf(w, s, s.pc.shard);
    MetadataStepLeads(s, NextEndCopy(s));
  }

  predicate IsRpc(step: Step) {
    step.PrepareRpc? || step.CommitRpc? || step.ConfigureRpc? || step.RebalanceConfigure? || step.InstallRpc? || step.CopyRpc?
  }

  lemma RpcStepLeads(w: World, s: State, step: Step)
    requires Inv(w, s) && Enabled(w, s, step) && IsRpc(step)
    ensures Leads(s, Next(w, s, step))
  {
    hide Core, Leads, AfterRpc, Answers, Registered, Issued;
    var t := Next(w, s, step);
    match step
    case PrepareRpc(out) => RpcLeads(w, s, s.pc.todo[0], s.pc.entry.shardId, Prepare(s.pc.entry), out, t);
    case CommitRpc(out) => RpcLeads(w, s, s.pc.todo[0], s.pc.entry.shardId, Commit(s.pc.entry), out, t);
    case ConfigureRpc(shard, n, out) =>
      RpcLeads(w, s, n, shard, Configure(s.meta.shards[shard].term, s.meta.shards[shard].placementEpoch), out, t);
    case RebalanceConfigure(out) =>
      var p := s.meta.shards[s.pc.shard];
      RpcLeads(w, s, s.pc.node, s.pc.shard, Configure(p.term, p.placementEpoch + 1), out, t);
    case InstallRpc(out) =>
      var p := s.meta.shards[s.pc.shard];
      RpcLeads(w, s, s.pc.node, s.pc.shard, Install(s.pc.rows, s.pc.index, p.term, p.placementEpoch + 1, s.pc.applied), out, t);
    case CopyRpc(out) =>
      var e := s.pc.entries[0];
      RpcLeads(w, s, s.pc.node, s.pc.shard, if s.pc.prepared then Commit(e) else Prepare(e), out, t);
  }

  lemma OtherStepLeads(w: World, s: State, step: Step)
    requires CollisionFree(w) && Inv(w, s) && Enabled(w, s, step) && !IsRpc(step)
    ensures Leads(s, Next(w, s, step))
  {
    hide Inv, Leads;
    if step.BeginWrite? {
      BeginWriteLeads(w, s, step.requestId, step.mutation);
    } else if step.EndPrepare? {
      EndPrepareLeads(w, s);
    } else if step.EndCommit? {
      EndCommitLeads(w, s);
    } else if step.EndElection? {
      ElectionLeads(w, s);
    } else if step.EndCopy? {
      CopyLeads(w, s);
    } else {
      MetadataStepLeads(s, Next(w, s, step));
    }
  }

  lemma StepLeads(w: World, s: State, step: Step)
    requires CollisionFree(w) && Inv(w, s) && Enabled(w, s, step)
    ensures Leads(s, Next(w, s, step))
  {
    hide Inv, Leads, Enabled, Next;
    if IsRpc(step) { RpcStepLeads(w, s, step); } else { OtherStepLeads(w, s, step); }
  }

  lemma {:induction false} RunLeads(w: World, run: seq<State>, i: nat, j: nat)
    requires CollisionFree(w) && Run(w, run) && i <= j < |run|
    ensures Leads(run[i], run[j])
    decreases j
  {
    if i == j {
      MetadataStepLeads(run[i], run[i]);
    } else {
      hide Leads, Inv, Enabled, Next;
      RunLeads(w, run, i, j - 1);
      ReachableInv(w, run, j - 1);
      assert Follows(w, run[j - 1], run[j]);
      var step :| Enabled(w, run[j - 1], step) && run[j] == Next(w, run[j - 1], step);
      StepLeads(w, run[j - 1], step);
      LeadsTransitive(run[i], run[j - 1], run[j]);
    }
  }

  // ---------------------------------------------------------------- theorems

  /** In every reachable state a majority of each shard's replicas has an applied index at or above the
      committed index, and the published metadata is valid. */
  lemma CommittedIndexIsOnAMajority(w: World, run: seq<State>, i: nat, shard: int)
    requires CollisionFree(w) && Run(w, run) && i < |run| && shard in run[i].meta.shards
    ensures Validate(w.kernel, run[i].meta)
    ensures |CaughtUp(run[i], shard)| >= run[i].meta.shards[shard].Quorum()
  {
    ReachableInv(w, run, i);
  }

  /** In every reachable state the published metadata is sound: every shard has a placement of its own
      with distinct, known replicas, a leader among them and no more committed than allocated. */
  lemma MetadataStaysSound(w: World, run: seq<State>, i: nat)
    requires CollisionFree(w) && Run(w, run) && i < |run|
    ensures var m := run[i].meta;
      && m.clusterId != "" && m.dimension > 0 && m.shardCount > 0 && 0 < m.replicationFactor <= |m.members| && m.epoch > 0
      && m.routingVersion == 2
      && (forall x :: x in m.shards <==> 0 <= x < m.shardCount)
      && (forall n :: n in m.members ==> n != "" && m.members[n].host != "" && 0 < m.members[n].port <= 65535)
      && (forall q :: q in m.requestTable ==> q != "")
    ensures forall x :: x in run[i].meta.shards ==>
      var p := run[i].meta.shards[x];
      && p.shardId == x && p.term > 0 && p.placementEpoch > 0 && 0 <= p.committedIndex <= p.lastLogIndex
      && p.leader in p.replicas && (forall n :: n in p.replicas ==> n in run[i].meta.members)
      && (forall j, k :: 0 <= j < k < |p.replicas| ==> p.replicas[j] != p.replicas[k])
  {
    ReachableInv(w, run, i);
    RunLeads(w, run, 0, i);
    var m := run[i].meta;
    assert Validate(w.kernel, m);
    forall x | x in m.shards ensures ValidPlacement(x, m.shards[x], m.members.Keys) && 0 <= m.shards[x].committedIndex {
      StartsAtZero(w, run, x);
      assert PlacementLeads(run[0].meta.shards[x], m.shards[x]);
    }
  }

  lemma StartsAtZero(w: World, run: seq<State>, x: int)
    requires Run(w, run) && x in run[0].meta.shards
    ensures run[0].meta.shards[x].committedIndex == 0
  {
  }

  /** A term advances only by an election, and the leader it names has an applied index at or above the
      committed index. */
  lemma NewLeaderIsCaughtUp(w: World, run: seq<State>, i: nat, shard: int)
    requires CollisionFree(w) && Run(w, run) && i + 1 < |run| && shard in run[i].meta.shards && shard in run[i + 1].meta.shards
    requires run[i + 1].meta.shards[shard].term != run[i].meta.shards[shard].term
    ensures CaughtUpLeader(run[i + 1], shard)
  {
    hide Inv, Enabled, Next;
    var s, t := run[i], run[i + 1];
    ReachableInv(w, run, i);
    assert Follows(w, s, t);
    var step :| Enabled(w, s, step) && t == Next(w, s, step);
    TermChange(w, s, step, shard);
  }

  ghost predicate CaughtUpLeader(t: State, shard: int)
    requires shard in t.meta.shards
  {
    var p := t.meta.shards[shard];
    p.leader in p.replicas && At(t, p.leader, shard).appliedIndex >= p.committedIndex
  }

  lemma RpcKeepsPc(s: State, n: Node, shard: int, op: Op, out: Outcome)
    ensures AfterRpc(s, n, shard, op, out).pc == s.pc
  {
  }

  lemma RpcStepKeepsMetadata(w: World, s: State, step: Step)
    requires Enabled(w, s, step) && IsRpc(step)
    ensures Next(w, s, step).meta == s.meta
  {
  }

  lemma TermChange(w: World, s: State, step: Step, shard: int)
    requires Inv(w, s) && Enabled(w, s, step) && shard in s.meta.shards
    ensures var t := Next(w, s, step);
      shard in t.meta.shards && (t.meta.shards[shard].term != s.meta.shards[shard].term ==> CaughtUpLeader(t, shard))
  {
    hide Core, CaughtUpLeader;
    if IsRpc(step) {
      RpcStepKeepsMetadata(w, s, step);
    } else {
      match step
      case BeginWrite(_, m) => PlacementOf(w, s, ShardOf(s, m));
      case EndCommit => PlacementOf(w, s, s.pc.entry.shardId);
      case EndElection => ElectionTermChange(w, s, shard);
      case EndCopy => PlacementOf(w, s, s.pc.shard);
      case _ =>
    }
  }

  lemma ElectionTermChange(w: World, s: State, shard: int)
    requires Inv(w, s) && s.pc.Electing? && s.pc.todo == [] && shard in s.meta.shards
    ensures var t := NextEndElection(s);
      shard in t.meta.shards && (t.meta.shards[shard].term != s.meta.shards[shard].term ==> CaughtUpLeader(t, shard))
  {
    hide Core, Best;
    PlacementOf(w, s, s.pc.shard);
    if |s.pc.candidates| >= s.meta.shards[s.pc.shard].Quorum() { ElectedLeaderIsCaughtUp(w, s); }
  }

  /** Any two journals that ever hold an entry at the same shard and index hold the same
      request and mutation there. */
  lemma JournalsAgree(w: World, run: seq<State>, i: nat, j: nat, a: Node, b: Node, shard: int, index: int)
    requires CollisionFree(w) && Run(w, run) && i < |run| && j < |run| && shard in run[0].meta.shards
    requires index in At(run[i], a, shard).journal.prepared && index in At(run[j], b, shard).journal.prepared
    ensures At(run[i], a, shard).journal.prepared[index].requestId == At(run[j], b, shard).journal.prepared[index].requestId
    ensures At(run[i], a, shard).journal.prepared[index].mutation == At(run[j], b, shard).journal.prepared[index].mutation
  {
    HeldEntryWasIssued(w, run, i, a, shard, index);
    HeldEntryWasIssued(w, run, j, b, shard, index);
    RunLeads(w, run, i, |run| - 1);
    RunLeads(w, run, j, |run| - 1);
  }

  lemma HeldEntryWasIssued(w: World, run: seq<State>, i: nat, n: Node, shard: int, index: int)
    requires CollisionFree(w) && Run(w, run) && i < |run| && shard in run[0].meta.shards
    requires index in At(run[i], n, shard).journal.prepared
    ensures At(run[i], n, shard).journal.prepared[index].index == index
    ensures Issued(run[i], shard, At(run[i], n, shard).journal.prepared[index])
    ensures StampBelow(At(run[i], n, shard).journal.prepared[index], At(run[i], n, shard))
    ensures index in At(run[i], n, shard).journal.committed ==>
      Registered(run[i], shard, At(run[i], n, shard).journal.prepared[index])
  {
    ReachableInv(w, run, i);
    assert JournalOk(run[i], shard, At(run[i], n, shard)) by {
      RunLeads(w, run, 0, i);
      PlacementOf(w, run[i], shard);
      FreshOk(run[i], n, shard);
    }
  }

  /** The shard and index that the last metadata of the run binds a request to. */
  ghost predicate FinallyBound(run: seq<State>, q: string, shard: int, index: int)
    requires |run| > 0
  {
    var table := run[|run| - 1].meta.requestTable;
    q in table && table[q].shardId == shard && table[q].index == index
  }

  lemma CommittedEntryIsBound(w: World, run: seq<State>, i: nat, n: Node, shard: int, index: int)
    requires CollisionFree(w) && Run(w, run) && i < |run| && shard in run[0].meta.shards
    requires index in At(run[i], n, shard).journal.committed && index in At(run[i], n, shard).journal.prepared
    ensures FinallyBound(run, At(run[i], n, shard).journal.prepared[index].requestId, shard, index)
  {
    HeldEntryWasIssued(w, run, i, n, shard, index);
    hide Run;
    RunLeads(w, run, i, |run| - 1);
    assert SameBinding(run[i], run[|run| - 1], At(run[i], n, shard).journal.prepared[index].requestId);
  }

  lemma AckIsBound(w: World, run: seq<State>, i: nat, ack: Ack)
    requires CollisionFree(w) && Run(w, run) && i < |run| && ack in run[i].acks
    ensures FinallyBound(run, ack.requestId, ack.shardId, ack.index)
  {
    hide Core, Run;
    ReachableInv(w, run, i);
    AckBound(w, run[i], ack);
    RunLeads(w, run, i, |run| - 1);
    assert SameBinding(run[i], run[|run| - 1], ack.requestId);
  }

  /** Whenever and wherever two committed entries carry the same request, they carry the same
      shard and index. */
  lemma RequestCommitsAtOneIndex(w: World, run: seq<State>, i: nat, j: nat, a: Node, b: Node, x: int, y: int, k: int, l: int)
    requires CollisionFree(w) && Run(w, run) && i < |run| && j < |run|
    requires x in run[0].meta.shards && y in run[0].meta.shards
    requires k in At(run[i], a, x).journal.committed && k in At(run[i], a, x).journal.prepared
    requires l in At(run[j], b, y).journal.committed && l in At(run[j], b, y).journal.prepared
    requires At(run[i], a, x).journal.prepared[k].requestId == At(run[j], b, y).journal.prepared[l].requestId
    ensures x == y && k == l
  {
    hide Run;
    CommittedEntryIsBound(w, run, i, a, x, k);
    CommittedEntryIsBound(w, run, j, b, y, l);
  }

  /** All acknowledgements of a request, at any two moments, name one shard and index, and it is
      the index at which any replica ever committed that request. */
  lemma AcknowledgementsAgree(w: World, run: seq<State>, i: nat, ack: Ack, j: nat)
    requires CollisionFree(w) && Run(w, run) && i < |run| && j < |run| && ack in run[i].acks
    ensures forall other :: other in run[j].acks && other.requestId == ack.requestId ==>
      other.shardId == ack.shardId && other.index == ack.index
    ensures forall n, y, l ::
      y in run[0].meta.shards && l in At(run[j], n, y).journal.committed && l in At(run[j], n, y).journal.prepared
      && At(run[j], n, y).journal.prepared[l].requestId == ack.requestId
      ==> ack.shardId == y && ack.index == l
  {
    hide Run, Core;
    AckIsBound(w, run, i, ack);
    forall other | other in run[j].acks && other.requestId == ack.requestId
      ensures other.shardId == ack.shardId && other.index == ack.index
    {
      AckIsBound(w, run, j, other);
    }
    forall n, y, l |
      y in run[0].meta.shards && l in At(run[j], n, y).journal.committed && l in At(run[j], n, y).journal.prepared
      && At(run[j], n, y).journal.prepared[l].requestId == ack.requestId
      ensures ack.shardId == y && ack.index == l
    {
      CommittedEntryIsBound(w, run, j, n, y, l);
    }
  }

  lemma AckBound(w: World, s: State, a: Ack)
    requires Core(w, s) && a in s.acks
    ensures AckOk(s, a)
  {
  }

  /** Published metadata over a run: equal epochs are the same metadata, a shard and term have
      one leader, and terms, epochs, log and committed indices never go back. */
  lemma MetadataHistory(w: World, run: seq<State>, i: nat, j: nat, shard: int)
    requires CollisionFree(w) && Run(w, run) && i <= j < |run| && shard in run[i].meta.shards
    ensures run[i].meta.epoch <= run[j].meta.epoch
    ensures run[i].meta.epoch == run[j].meta.epoch ==> run[i].meta == run[j].meta
    ensures shard in run[j].meta.shards && PlacementLeads(run[i].meta.shards[shard], run[j].meta.shards[shard])
  {
    RunLeads(w, run, i, j);
  }

  /** A member replica never holds a term or placement epoch above the published one. */
  lemma MembersNeverRunAhead(w: World, run: seq<State>, i: nat, shard: int, n: Node)
    requires CollisionFree(w) && Run(w, run) && i < |run|
    requires shard in run[i].meta.shards && n in run[i].meta.shards[shard].replicas
    ensures At(run[i], n, shard).term <= run[i].meta.shards[shard].term
    ensures At(run[i], n, shard).placementEpoch <= run[i].meta.shards[shard].placementEpoch
  {
    ReachableInv(w, run, i);
    PlacementOf(w, run[i], shard);
    FreshOk(run[i], n, shard);
  }

  /** Whatever happens in between, the applied index, term and placement epoch of a replica never
      decrease. */
  lemma ReplicasNeverGoBack(w: World, run: seq<State>, i: nat, j: nat, n: Node, shard: int)
    requires CollisionFree(w) && Run(w, run) && i <= j < |run|
    ensures At(run[i], n, shard).appliedIndex <= At(run[j], n, shard).appliedIndex
    ensures At(run[i], n, shard).term <= At(run[j], n, shard).term
    ensures At(run[i], n, shard).placementEpoch <= At(run[j], n, shard).placementEpoch
  {
    RunLeads(w, run, i, j);
    assert ReplicaLeads(At(run[i], n, shard), At(run[j], n, shard));
  }

  /** An entry that reaches a journal later carries a stamp componentwise at least as new as
      every entry the journal already held, across crashes. */
  lemma StampsNeverGoBack(w: World, run: seq<State>, i: nat, j: nat, n: Node, shard: int, earlier: int, later: int)
    requires CollisionFree(w) && Run(w, run) && i <= j < |run| && shard in run[0].meta.shards
    requires earlier in At(run[i], n, shard).journal.prepared
    requires later in At(run[j], n, shard).journal.prepared && later !in At(run[i], n, shard).journal.prepared
    ensures At(run[i], n, shard).journal.prepared[earlier].term <= At(run[j], n, shard).journal.prepared[later].term
    ensures At(run[i], n, shard).journal.prepared[earlier].placementEpoch <= At(run[j], n, shard).journal.prepared[later].placementEpoch
    ensures At(run[i], n, shard).appliedIndex <= At(run[j], n, shard).appliedIndex
  {
    HeldEntryWasIssued(w, run, i, n, shard, earlier);
    RunLeads(w, run, i, j);
    assert ReplicaLeads(At(run[i], n, shard), At(run[j], n, shard));
  }
}
