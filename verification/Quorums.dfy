/** Nothing is registered, acknowledged or elected without a quorum: what the journals of a majority
    hold at the moment the coordinator publishes each of these decisions. */
module Quorums {
  import opened Basics
  import opened Protocol
  import opened Replicas
  import opened Cluster
  import opened ClusterInvariant
  import opened ClusterSteps
  import opened ClusterReconfiguration
  import opened ClusterSafety

  /** The replica's journal holds the entry's request and mutation at its index. */
  ghost predicate HoldsEntry(s: State, n: Node, e: Entry) {
    var j := At(s, n, e.shardId).journal;
    e.index in j.prepared && j.prepared[e.index].requestId == e.requestId && j.prepared[e.index].mutation == e.mutation
  }

  ghost predicate CommittedBy(s: State, n: Node, e: Entry) {
    HoldsEntry(s, n, e) && e.index in At(s, n, e.shardId).journal.committed && At(s, n, e.shardId).appliedIndex >= e.index
  }

  /** Every node counted so far did what its answer says. */
  ghost predicate AnswersCount(s: State) {
    match s.pc
    case Preparing(e, _, done) =>
      e.shardId in s.meta.shards && forall n :: n in done ==> n in s.meta.shards[e.shardId].replicas && HoldsEntry(s, n, e)
    case Committing(e, _, done) =>
      e.shardId in s.meta.shards && forall n :: n in done ==> n in s.meta.shards[e.shardId].replicas && CommittedBy(s, n, e)
    case _ => true
  }

  /** An accepted prepare or commit leaves the entry in the journal, and nothing else leaves it. */
  lemma AnsweredHolds(w: World, s: State, n: Node, e: Entry, commit: bool, out: Outcome, t: State)
    requires Core(w, s) && e.shardId in s.meta.shards && Issued(s, e.shardId, e)
    requires t == AfterRpc(s, n, e.shardId, if commit then Commit(e) else Prepare(e), out).(pc := t.pc)
    ensures var op := if commit then Commit(e) else Prepare(e);
      && (Answers(s, n, e.shardId, op, out) ==> HoldsEntry(t, n, e) && (commit ==> CommittedBy(t, n, e)))
      && (forall m :: HoldsEntry(s, m, e) ==> HoldsEntry(t, m, e))
      && (forall m :: CommittedBy(s, m, e) ==> CommittedBy(t, m, e))
  {
    assert JournalOk(s, e.shardId, At(s, n, e.shardId)) by {
      PlacementOf(w, s, e.shardId);
      FreshOk(s, n, e.shardId);
    }
    hide Core, Issued, JournalOk, AfterRpc, Answers, RpcStages;
    var d := RpcExtends(s, n, e, commit, out, t);
    ExtendsHolds(s, t, n, e, d);
    var op := if commit then Commit(e) else Prepare(e);
    if Answers(s, n, e.shardId, op, out) {
      hide Extends;
      AnsweredOnly(s, n, e.shardId, op, out);
      LastStageHolds(s, n, e, commit);
    }
  }

  lemma ExtendsHolds(s: State, t: State, n: Node, e: Entry, d: Replica)
    requires Extends(At(s, n, e.shardId), d) && (t.disks == s.disks || t.disks == s.disks[(n, e.shardId) := d])
    ensures forall m :: HoldsEntry(s, m, e) ==> HoldsEntry(t, m, e)
    ensures forall m :: CommittedBy(s, m, e) ==> CommittedBy(t, m, e)
  {
    forall m ensures Extends(At(s, m, e.shardId), At(t, m, e.shardId)) {
      if m == n && t.disks != s.disks { assert At(t, m, e.shardId) == d; } else { assert At(t, m, e.shardId) == At(s, m, e.shardId); }
    }
  }

  lemma AnsweredOnly(s: State, n: Node, shard: int, op: Op, out: Outcome)
    requires Answers(s, n, shard, op, out)
    ensures out == Answered
  {
  }

  lemma RpcExtends(s: State, n: Node, e: Entry, commit: bool, out: Outcome, t: State) returns (d: Replica)
    requires t == AfterRpc(s, n, e.shardId, if commit then Commit(e) else Prepare(e), out).(pc := t.pc)
    ensures Extends(At(s, n, e.shardId), d)
    ensures t.disks == s.disks || t.disks == s.disks[(n, e.shardId) := d]
    ensures var op := if commit then Commit(e) else Prepare(e); var stages := RpcStages(s, n, e.shardId, op);
      Answers(s, n, e.shardId, op, out) ==> t.disks == s.disks[(n, e.shardId) := d] && d == stages[|stages| - 1]
  {
    hide RpcStages, Extends;
    var op := if commit then Commit(e) else Prepare(e);
    var stages := RpcStages(s, n, e.shardId, op);
    var k := if out.CrashAt? && out.stage < |stages| then out.stage else |stages| - 1;
    d := stages[k];
    StageExtends(s, n, e, commit, k);
  }

  /** Journals only grow and applied indices only rise. */
  ghost predicate Extends(r: Replica, d: Replica) {
    && r.journal.committed <= d.journal.committed && r.appliedIndex <= d.appliedIndex
    && forall i :: i in r.journal.prepared ==> i in d.journal.prepared && d.journal.prepared[i] == r.journal.prepared[i]
  }

  lemma StageExtends(s: State, n: Node, e: Entry, commit: bool, k: nat)
    requires var op := if commit then Commit(e) else Prepare(e); k < |RpcStages(s, n, e.shardId, op)|
    ensures var op := if commit then Commit(e) else Prepare(e); Extends(At(s, n, e.shardId), RpcStages(s, n, e.shardId, op)[k])
  {
  }

  lemma LastStageHolds(s: State, n: Node, e: Entry, commit: bool)
    requires Issued(s, e.shardId, e) && JournalOk(s, e.shardId, At(s, n, e.shardId))
    requires Answers(s, n, e.shardId, if commit then Commit(e) else Prepare(e), Answered)
    ensures var stages := RpcStages(s, n, e.shardId, if commit then Commit(e) else Prepare(e)); var d := stages[|stages| - 1];
      && e.index in d.journal.prepared
      && d.journal.prepared[e.index].requestId == e.requestId && d.journal.prepared[e.index].mutation == e.mutation
      && (commit ==> e.index in d.journal.committed && d.appliedIndex >= e.index)
  {
    var r := At(s, n, e.shardId);
    if e.index in r.journal.prepared { assert Issued(s, e.shardId, r.journal.prepared[e.index]); }
  }

  lemma StepKeepsAnswers(w: World, s: State, step: Step)
    requires Inv(w, s) && AnswersCount(s) && Enabled(w, s, step)
    ensures AnswersCount(Next(w, s, step))
  {
    hide Core, AfterRpc, Answers, HoldsEntry, CommittedBy;
    if step.PrepareRpc? {
      AnsweredHolds(w, s, s.pc.todo[0], s.pc.entry, false, step.outcome, Next(w, s, step));
      RpcStepKeepsMetadata(w, s, step);
    } else if step.CommitRpc? {
      AnsweredHolds(w, s, s.pc.todo[0], s.pc.entry, true, step.outcome, Next(w, s, step));
      RpcStepKeepsMetadata(w, s, step);
    } else if step.BeginWrite? || step.RetryPrepared? {
      PlacementOf(w, s, ShardOf(s, step.mutation));
    } else if step.NodeCrash? {
      SameDisksSameAnswers(s, Next(w, s, step));
    } else if step.ConfigureRpc? {
      var p := s.meta.shards[step.shard];
      RpcKeepsPc(s, step.node, step.shard, Configure(p.term, p.placementEpoch), step.outcome);
    }
  }

  lemma SameDisksSameAnswers(s: State, t: State)
    requires AnswersCount(s) && t.disks == s.disks && t.meta == s.meta && t.pc == s.pc
    ensures AnswersCount(t)
  {
    assert forall n, x :: At(t, n, x) == At(s, n, x);
  }

  lemma {:induction false} ReachableAnswers(w: World, run: seq<State>, i: nat)
    requires CollisionFree(w) && Run(w, run) && i < |run|
    ensures AnswersCount(run[i])
  {
    hide Inv, Enabled, Next, AnswersCount;
    if i == 0 {
      var nodes :| Init(w, run[0], nodes);
      IdleAnswers(run[0]);
    } else {
      ReachableAnswers(w, run, i - 1);
      ReachableInv(w, run, i - 1);
      assert Cluster.Follows(w, run[i - 1], run[i]);
      var step :| Enabled(w, run[i - 1], step) && run[i] == Next(w, run[i - 1], step);
      StepKeepsAnswers(w, run[i - 1], step);
    }
  }

  lemma IdleAnswers(s: State)
    requires s.pc.Idle?
    ensures AnswersCount(s)
  {
  }

  // ---------------------------------------------------------------- theorems

  /** The replicas of a shard whose journal holds a request's mutation at an index. */
  ghost function Holding(s: State, shard: int, index: int, req: string): set<Node>
    requires shard in s.meta.shards
  {
    set n | n in s.meta.shards[shard].replicas && index in At(s, n, shard).journal.prepared
            && At(s, n, shard).journal.prepared[index].requestId == req
  }

  ghost function Committing(s: State, shard: int, index: int): set<Node>
    requires shard in s.meta.shards
  {
    set n | n in s.meta.shards[shard].replicas && index in At(s, n, shard).journal.committed && At(s, n, shard).appliedIndex >= index
  }

  ghost predicate RegisteredByQuorum(t: State, q: string)
    requires q in t.meta.requestTable
  {
    var rec := t.meta.requestTable[q];
    && rec.shardId in t.meta.shards
    && var p := t.meta.shards[rec.shardId];
       p.leader in Holding(t, rec.shardId, rec.index, q) && |Holding(t, rec.shardId, rec.index, q)| >= p.Quorum()
  }

  ghost predicate CommittedByQuorum(t: State, q: string)
    requires q in t.meta.requestTable
  {
    var rec := t.meta.requestTable[q];
    && rec.shardId in t.meta.shards && rec.index <= t.meta.shards[rec.shardId].committedIndex
    && |Committing(t, rec.shardId, rec.index)| >= t.meta.shards[rec.shardId].Quorum()
  }

  lemma EndPrepareQuorum(w: World, s: State, q: string)
    requires Inv(w, s) && AnswersCount(s) && s.pc.Preparing?
    requires q !in s.meta.requestTable && q in NextEndPrepare(w, s).meta.requestTable
    ensures RegisteredByQuorum(NextEndPrepare(w, s), q)
  {
    hide Core;
    var e, t := s.pc.entry, NextEndPrepare(w, s);
    assert forall n :: At(t, n, e.shardId) == At(s, n, e.shardId);
    SubsetCardinality(s.pc.done, Holding(t, e.shardId, e.index, e.requestId));
  }

  lemma EndCommitQuorum(w: World, s: State, q: string)
    requires Inv(w, s) && AnswersCount(s) && s.pc.Committing? && q in s.meta.requestTable && s.meta.requestTable[q].status.Prepared?
    requires q in NextEndCommit(w, s).meta.requestTable && NextEndCommit(w, s).meta.requestTable[q].status.Committed?
    ensures CommittedByQuorum(NextEndCommit(w, s), q)
  {
    hide Core, Committing, CommittedBy, Registered;
    PlacementOf(w, s, s.pc.entry.shardId);
    DoneCommitted(s, NextEndCommit(w, s), s.pc.entry, s.pc.done);
  }

  lemma DoneCommitted(s: State, t: State, e: Entry, done: set<Node>)
    requires e.shardId in t.meta.shards && t.disks == s.disks
    requires forall n :: n in done ==> n in t.meta.shards[e.shardId].replicas && CommittedBy(s, n, e)
    ensures |Committing(t, e.shardId, e.index)| >= |done|
  {
    assert forall n :: n in done ==> At(t, n, e.shardId) == At(s, n, e.shardId);
    SubsetCardinality(done, Committing(t, e.shardId, e.index));
  }

  lemma RegistrationStep(w: World, s: State, step: Step, q: string)
    requires Inv(w, s) && AnswersCount(s) && Enabled(w, s, step)
    requires q !in s.meta.requestTable && q in Next(w, s, step).meta.requestTable
    ensures RegisteredByQuorum(Next(w, s, step), q)
  {
    hide Core, AnswersCount, RegisteredByQuorum;
    if IsRpc(step) {
      RpcStepKeepsMetadata(w, s, step);
    } else if step.EndPrepare? {
      EndPrepareQuorum(w, s, q);
    }
  }

  lemma CommitStep(w: World, s: State, step: Step, q: string)
    requires Inv(w, s) && AnswersCount(s) && Enabled(w, s, step)
    requires q in s.meta.requestTable && s.meta.requestTable[q].status.Prepared?
    requires q in Next(w, s, step).meta.requestTable && Next(w, s, step).meta.requestTable[q].status.Committed?
    ensures CommittedByQuorum(Next(w, s, step), q)
  {
    hide Core, AnswersCount, CommittedByQuorum;
    if IsRpc(step) {
      RpcStepKeepsMetadata(w, s, step);
    } else if step.EndCommit? {
      EndCommitQuorum(w, s, q);
    }
  }

  /** When a request is first published in the request table, the leader and a quorum of the shard's
      replicas hold it durably at its index. */
  lemma RegistrationNeedsQuorum(w: World, run: seq<State>, i: nat, q: string)
    requires CollisionFree(w) && Run(w, run) && i + 1 < |run|
    requires q !in run[i].meta.requestTable && q in run[i + 1].meta.requestTable
    ensures RegisteredByQuorum(run[i + 1], q)
  {
    hide Inv, Enabled, Next, AnswersCount, RegisteredByQuorum;
    ReachableInv(w, run, i);
    ReachableAnswers(w, run, i);
    assert Cluster.Follows(w, run[i], run[i + 1]);
    var step :| Enabled(w, run[i], step) && run[i + 1] == Next(w, run[i], step);
    RegistrationStep(w, run[i], step, q);
  }

  /** When a request is published as committed, a quorum of the shard's replicas has its commit
      marker and an applied index at or above it. */
  lemma CommitNeedsQuorum(w: World, run: seq<State>, i: nat, q: string)
    requires CollisionFree(w) && Run(w, run) && i + 1 < |run|
    requires q in run[i].meta.requestTable && run[i].meta.requestTable[q].status.Prepared?
    requires q in run[i + 1].meta.requestTable && run[i + 1].meta.requestTable[q].status.Committed?
    ensures CommittedByQuorum(run[i + 1], q)
  {
    hide Inv, Enabled, Next, AnswersCount, CommittedByQuorum;
    ReachableInv(w, run, i);
    ReachableAnswers(w, run, i);
    assert Cluster.Follows(w, run[i], run[i + 1]);
    var step :| Enabled(w, run[i], step) && run[i + 1] == Next(w, run[i], step);
    CommitStep(w, run[i], step, q);
  }

  // ---------------------------------------------------------------- acknowledgements

  /** Only requests published as committed are acknowledged. */
  ghost predicate AcksCommitted(s: State) {
    forall a :: a in s.acks ==> IsCommitted(s, a.requestId)
  }

  ghost predicate IsCommitted(s: State, q: string) {
    q in s.meta.requestTable && s.meta.requestTable[q].status.Committed?
  }

  /** A committed request stays committed, and a new request is not committed at once. */
  lemma StatusStep(w: World, s: State, step: Step, q: string)
    requires Inv(w, s) && Enabled(w, s, step)
    ensures IsCommitted(s, q) ==> IsCommitted(Next(w, s, step), q)
    ensures q !in s.meta.requestTable ==> !IsCommitted(Next(w, s, step), q)
  {
    hide Core, Best, AfterRpc, Issued, Answers;
    if IsRpc(step) { RpcStepKeepsMetadata(w, s, step); }
  }

  lemma StepKeepsAcksCommitted(w: World, s: State, step: Step)
    requires Inv(w, s) && Enabled(w, s, step) && AcksCommitted(s)
    ensures AcksCommitted(Next(w, s, step))
  {
    var t := Next(w, s, step);
    forall a | a in t.acks ensures IsCommitted(t, a.requestId) {
      if a in s.acks {
        StatusStep(w, s, step, a.requestId);
      } else {
        NewAckIsCommitted(w, s, step, a);
      }
    }
  }

  lemma NewAckIsCommitted(w: World, s: State, step: Step, a: Ack)
    requires Enabled(w, s, step) && a !in s.acks && a in Next(w, s, step).acks
    ensures IsCommitted(Next(w, s, step), a.requestId)
  {
    if IsRpc(step) { RpcStepKeepsAcks(w, s, step); }
  }

  lemma RpcStepKeepsAcks(w: World, s: State, step: Step)
    requires Enabled(w, s, step) && IsRpc(step)
    ensures Next(w, s, step).acks == s.acks
  {
  }

  lemma {:induction false} ReachableAcksCommitted(w: World, run: seq<State>, i: nat)
    requires CollisionFree(w) && Run(w, run) && i < |run|
    ensures AcksCommitted(run[i])
  {
    hide Inv, Enabled, Next;
    if i > 0 {
      ReachableAcksCommitted(w, run, i - 1);
      ReachableInv(w, run, i - 1);
      assert Cluster.Follows(w, run[i - 1], run[i]);
      var step :| Enabled(w, run[i - 1], step) && run[i] == Next(w, run[i - 1], step);
      hide AcksCommitted;
      StepKeepsAcksCommitted(w, run[i - 1], step);
    }
  }

  lemma {:induction false} CommittedOnce(w: World, run: seq<State>, i: nat, q: string) returns (j: nat)
    requires CollisionFree(w) && Run(w, run) && i < |run| && IsCommitted(run[i], q)
    ensures j <= i && q in run[j].meta.requestTable && CommittedByQuorum(run[j], q)
  {
    hide Inv, Enabled, Next, CommittedByQuorum;
    j := 0;
    if i > 0 {
      ReachableInv(w, run, i - 1);
      assert Cluster.Follows(w, run[i - 1], run[i]);
      var step :| Enabled(w, run[i - 1], step) && run[i] == Next(w, run[i - 1], step);
      StatusStep(w, run[i - 1], step, q);
      if IsCommitted(run[i - 1], q) {
        j := CommittedOnce(w, run, i - 1, q);
      } else {
        CommitNeedsQuorum(w, run, i - 1, q);
        j := i;
      }
    }
  }

  /** No acknowledgement without a commit quorum: at the moment the request was published as
      committed, a quorum of the shard's replicas had the commit marker of exactly the acknowledged
      index, and an applied index at or above it. */
  lemma AcknowledgementNeedsQuorum(w: World, run: seq<State>, i: nat, ack: Ack) returns (j: nat)
    requires CollisionFree(w) && Run(w, run) && i < |run| && ack in run[i].acks
    ensures j <= i && ack.shardId in run[j].meta.shards && ack.index <= run[j].meta.shards[ack.shardId].committedIndex
    ensures |Committing(run[j], ack.shardId, ack.index)| >= run[j].meta.shards[ack.shardId].Quorum()
  {
    ReachableAcksCommitted(w, run, i);
    j := CommittedOnce(w, run, i, ack.requestId);
    hide Run;
    AckIsBound(w, run, i, ack);
    RunLeads(w, run, j, |run| - 1);
    assert SameBinding(run[j], run[|run| - 1], ack.requestId);
  }

  // ---------------------------------------------------------------- one acknowledgement

  /** Every acknowledgement repeats what the request table says of its request, which is committed; and
      a commit round is only ever for a request that is not. */
  ghost predicate AcksMatch(s: State) {
    && (forall a :: a in s.acks ==> AckMatches(s, a))
    && (s.pc.Committing? ==> s.pc.entry.requestId in s.meta.requestTable && !IsCommitted(s, s.pc.entry.requestId))
  }

  ghost predicate AckMatches(s: State, a: Ack) {
    && IsCommitted(s, a.requestId)
    && var rec := s.meta.requestTable[a.requestId]; a == Ack(a.requestId, rec.shardId, rec.term, rec.index)
  }

  lemma EndPrepareMatches(w: World, s: State)
    requires PcOk(w, s) && AcksMatch(s) && s.pc.Preparing? && s.pc.entry.shardId in s.meta.shards
    ensures AcksMatch(NextEndPrepare(w, s))
  {
    var t := NextEndPrepare(w, s);
    forall a | a in t.acks ensures AckMatches(t, a) { assert AckMatches(s, a); }
  }

  lemma EndCommitMatches(w: World, s: State)
    requires AcksMatch(s) && s.pc.Committing? && s.pc.entry.shardId in s.meta.shards
    ensures AcksMatch(NextEndCommit(w, s))
  {
    var t := NextEndCommit(w, s);
    forall a | a in t.acks ensures AckMatches(t, a) {
      if a in s.acks { assert AckMatches(s, a); }
    }
  }

  lemma DuplicateMatches(w: World, s: State, req: string, m: Mutation)
    requires CollisionFree(w) && Inv(w, s) && AcksMatch(s) && Enabled(w, s, AnswerDuplicate(req, m))
    ensures AcksMatch(NextDuplicate(s, req, m))
  {
    SameMutation(w, s, req, m);
    hide Core;
    var t := NextDuplicate(s, req, m);
    forall a | a in t.acks ensures AckMatches(t, a) {
      if a in s.acks { assert AckMatches(s, a); }
    }
  }

  lemma SameTableMatches(s: State, t: State)
    requires AcksMatch(s) && t.acks == s.acks && t.meta.requestTable == s.meta.requestTable
    requires t.pc.Committing? ==> (
      || (s.pc.Committing? && t.pc.entry == s.pc.entry)
      || (t.pc.entry.requestId in s.meta.requestTable && s.meta.requestTable[t.pc.entry.requestId].status.Prepared?))
    ensures AcksMatch(t)
  {
    forall a | a in t.acks ensures AckMatches(t, a) { assert AckMatches(s, a); }
  }

  lemma RpcStepKeepsEntry(w: World, s: State, step: Step)
    requires Enabled(w, s, step) && IsRpc(step) && Next(w, s, step).pc.Committing?
    ensures s.pc.Committing? && Next(w, s, step).pc.entry == s.pc.entry
  {
    hide Answers;
  }

  lemma StepKeepsAcksMatch(w: World, s: State, step: Step)
    requires CollisionFree(w) && Inv(w, s) && Enabled(w, s, step) && AcksMatch(s)
    ensures AcksMatch(Next(w, s, step))
  {
    hide Core, AcksMatch;
    var t := Next(w, s, step);
    if IsRpc(step) {
      RpcStepKeepsAcks(w, s, step);
      RpcStepKeepsMetadata(w, s, step);
      if t.pc.Committing? { RpcStepKeepsEntry(w, s, step); }
      hide PcOk, Next, Enabled;
      SameTableMatches(s, t);
    } else if step.EndPrepare? {
      EndPrepareMatches(w, s);
    } else if step.EndCommit? {
      EndCommitMatches(w, s);
    } else if step.AnswerDuplicate? {
      DuplicateMatches(w, s, step.requestId, step.mutation);
    } else {
      hide PcOk;
      SameTableMatches(s, t);
    }
  }

  lemma {:induction false} ReachableAcksMatch(w: World, run: seq<State>, i: nat)
    requires CollisionFree(w) && Run(w, run) && i < |run|
    ensures AcksMatch(run[i])
  {
    hide Inv, Enabled, Next;
    if i > 0 {
      hide AcksMatch;
      ReachableAcksMatch(w, run, i - 1);
      ReachableInv(w, run, i - 1);
      assert Cluster.Follows(w, run[i - 1], run[i]);
      var step :| Enabled(w, run[i - 1], step) && run[i] == Next(w, run[i - 1], step);
      StepKeepsAcksMatch(w, run[i - 1], step);
    } else {
      NothingAcked(w, run);
    }
  }

  lemma NothingAcked(w: World, run: seq<State>)
    requires Run(w, run)
    ensures AcksMatch(run[0])
  {
  }

  /** A request has one acknowledgement, in shard, term and index: a retry that is answered from the
      request table returns the original. */
  lemma OneAcknowledgement(w: World, run: seq<State>, i: nat, j: nat, a: Ack, b: Ack)
    requires CollisionFree(w) && Run(w, run) && i <= j < |run| && a in run[i].acks && b in run[j].acks
    requires a.requestId == b.requestId
    ensures a == b
  {
    RunLeads(w, run, i, j);
    ReachableAcksMatch(w, run, j);
    hide Run;
    assert AckMatches(run[j], a) && AckMatches(run[j], b);
  }

  /** No term without a quorum: when a term changes, a quorum of the shard's replicas has applied at
      most what the new leader has. */
  lemma ElectionNeedsQuorum(w: World, run: seq<State>, i: nat, shard: int)
    requires CollisionFree(w) && Run(w, run) && i + 1 < |run| && shard in run[i].meta.shards && shard in run[i + 1].meta.shards
    requires run[i + 1].meta.shards[shard].term != run[i].meta.shards[shard].term
    ensures |NotAhead(run[i + 1], shard)| >= run[i + 1].meta.shards[shard].Quorum()
  {
    hide Inv, Enabled, Next;
    ReachableInv(w, run, i);
    assert Cluster.Follows(w, run[i], run[i + 1]);
    var step :| Enabled(w, run[i], step) && run[i + 1] == Next(w, run[i], step);
    TermStep(w, run[i], step, shard);
  }

  ghost function NotAhead(s: State, shard: int): set<Node>
    requires shard in s.meta.shards
  {
    var p := s.meta.shards[shard];
    set n | n in p.replicas && At(s, n, shard).appliedIndex <= At(s, p.leader, shard).appliedIndex
  }

  lemma TermStep(w: World, s: State, step: Step, shard: int)
    requires Inv(w, s) && Enabled(w, s, step) && shard in s.meta.shards && shard in Next(w, s, step).meta.shards
    requires Next(w, s, step).meta.shards[shard].term != s.meta.shards[shard].term
    ensures |NotAhead(Next(w, s, step), shard)| >= Next(w, s, step).meta.shards[shard].Quorum()
  {
    hide Core, NotAhead;
    if IsRpc(step) {
      RpcStepKeepsMetadata(w, s, step);
    } else if step.BeginWrite? {
      PlacementOf(w, s, ShardOf(s, step.mutation));
    } else if step.EndCommit? {
      PlacementOf(w, s, s.pc.entry.shardId);
    } else if step.EndElection? {
      ElectionQuorum(w, s, shard);
    } else if step.EndCopy? {
      PlacementOf(w, s, s.pc.shard);
    }
  }

  lemma ElectionQuorum(w: World, s: State, shard: int)
    requires Inv(w, s) && s.pc.Electing? && s.pc.todo == [] && shard in s.meta.shards && shard in NextEndElection(s).meta.shards
    requires NextEndElection(s).meta.shards[shard].term != s.meta.shards[shard].term
    ensures |NotAhead(NextEndElection(s), shard)| >= NextEndElection(s).meta.shards[shard].Quorum()
  {
    hide Core, Best, NotAhead;
    PlacementOf(w, s, s.pc.shard);
    BestIsFirst(s.meta.shards[shard].replicas, s.pc.candidates);
    CandidatesNotAhead(s, NextEndElection(s), shard, s.pc.candidates);
  }

  lemma CandidatesNotAhead(s: State, t: State, shard: int, candidates: map<Node, int>)
    requires shard in t.meta.shards && t.disks == s.disks
    requires forall n :: n in candidates ==> n in t.meta.shards[shard].replicas && candidates[n] == At(s, n, shard).appliedIndex
    requires t.meta.shards[shard].leader in candidates
    requires forall n :: n in candidates ==> candidates[n] <= candidates[t.meta.shards[shard].leader]
    ensures |NotAhead(t, shard)| >= |candidates|
  {
    assert forall n :: n in candidates ==> At(t, n, shard) == At(s, n, shard);
    SubsetCardinality(candidates.Keys, NotAhead(t, shard));
  }
}
