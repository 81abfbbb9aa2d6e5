/** What the collections hold over whole cluster runs. Every replica keeps a list of the indices whose
    mutations it has applied; in every reachable state its collection is the agreed log applied at
    exactly that list, and every step leaves the list alone, appends one index to it, or replaces it
    by the list of the snapshot's source. */
module CollectionHistory {
  import opened Basics
  import opened Protocol
  import opened Replicas
  import opened Cluster
  import opened ClusterInvariant
  import opened ClusterSteps
  import opened ClusterSafety

  type Issues = map<(int, int), (string, Mutation)>

  /** The agreed log applied to an empty collection at a list of indices. */
  ghost function Fold(issued: Issues, shard: int, indices: seq<int>): Collection {
    if indices == [] then map[]
    else
      var before, i := Fold(issued, shard, indices[..|indices| - 1]), indices[|indices| - 1];
      if (shard, i) in issued then Apply(before, issued[(shard, i)].1) else before
  }

  /** The index was handed out, and the request table binds its request to it. */
  ghost predicate Bound(s: State, shard: int, i: int) {
    && (shard, i) in s.issued && s.issued[(shard, i)].0 in s.meta.requestTable
    && var rec := s.meta.requestTable[s.issued[(shard, i)].0];
      rec.shardId == shard && rec.index == i
  }

  ghost predicate Lists(s: State, shard: int, indices: seq<int>, last: int) {
    && Ascending(indices) && (forall k :: 0 <= k < |indices| ==> Bound(s, shard, indices[k]))
    && last == (if indices == [] then 0 else indices[|indices| - 1])
  }

  /** A collection that is the log at exactly the listed indices, the last of which is `last`. */
  ghost predicate Holds(s: State, shard: int, c: Collection, last: int, indices: seq<int>) {
    Lists(s, shard, indices, last) && c == Fold(s.issued, shard, indices)
  }

  /** What the replica applied itself its own journal committed, above the snapshot; what came with
      the snapshot is not above it. */
  ghost predicate Accounts(r: Replica) {
    && (forall i :: i in r.own ==> i in r.journal.committed && i > r.journal.snapshotIndex)
    && (forall i :: i in r.seed ==> i <= r.journal.snapshotIndex)
  }

  /** A replica between operations. */
  ghost predicate Settled(s: State, shard: int, r: Replica) {
    Quiescent(r) && Holds(s, shard, r.collection, r.appliedIndex, r.Applied()) && Accounts(r)
  }

  /** Recovery settles every disk, and an open shard is settled already. */
  ghost predicate DiskHolds(s: State, n: Node, shard: int) {
    var r := At(s, n, shard);
    WellFormed(r.journal) && Settled(s, shard, Reopen(r)) && ((n, shard) in s.open ==> Quiescent(r))
  }

  ghost predicate DisksHold(s: State) {
    forall n, shard :: shard in s.meta.shards ==> DiskHolds(s, n, shard)
  }

  ghost predicate History(s: State) {
    DisksHold(s) && (s.pc.Exported? ==> Holds(s, s.pc.shard, s.pc.rows, s.pc.index, s.pc.applied))
  }

  // ---------------------------------------------------------------- how a replica's list moves

  /** The list stays. A newly committed index is not above the applied one: it came late. */
  ghost predicate Keeps(r: Replica, d: Replica) {
    && d.seed == r.seed && d.own == r.own && d.appliedIndex == r.appliedIndex && d.collection == r.collection
    && r.journal.committed <= d.journal.committed && d.journal.snapshotIndex == r.journal.snapshotIndex
    && forall i :: i in d.journal.committed && i !in r.journal.committed ==> i <= r.appliedIndex
  }

  /** One index above the applied one is committed and appended. */
  ghost predicate Appends(r: Replica, d: Replica, index: int) {
    && index > r.appliedIndex && d.appliedIndex == index && d.seed == r.seed && d.own == r.own + [index]
    && d.journal.committed == r.journal.committed + {index} && d.journal.snapshotIndex == r.journal.snapshotIndex
  }

  /** The list is replaced by the one that came with a snapshot. */
  ghost predicate Seeds(d: Replica, index: int, applied: seq<int>) {
    d.seed == applied && d.own == [] && d.appliedIndex == index && d.journal == Journal(map[], {}, index)
  }

  ghost predicate Moves(r: Replica, d: Replica, op: Op) {
    || Keeps(r, d)
    || (op.Commit? && Appends(r, d, op.entry.index))
    || (op.Install? && Seeds(d, op.index, op.applied))
  }

  /** A commit appends its index to the list and applies its mutation when the index is above the
      applied one; otherwise it changes neither the list nor the collection. */
  lemma CommitMoves(r: Replica, e: Entry)
    requires JournalPrepare(r.journal, e).Ok?
    ensures e.index > r.appliedIndex ==> Appends(r, CommitEntry(r, e), e.index)
    ensures e.index <= r.appliedIndex ==> Keeps(r, CommitEntry(r, e))
    ensures e.index in CommitEntry(r, e).Applied() <==> e.index > r.appliedIndex || e.index in r.Applied()
  {
  }

  // ---------------------------------------------------------------- growing the log

  lemma {:induction false} FoldFrame(a: Issues, b: Issues, shard: int, indices: seq<int>)
    requires forall k :: 0 <= k < |indices| ==> (shard, indices[k]) in a && (shard, indices[k]) in b
    requires forall k :: 0 <= k < |indices| ==> b[(shard, indices[k])] == a[(shard, indices[k])]
    ensures Fold(a, shard, indices) == Fold(b, shard, indices)
  {
    if indices != [] { FoldFrame(a, b, shard, indices[..|indices| - 1]); }
  }

  lemma HoldsFrame(s: State, t: State, shard: int, c: Collection, last: int, indices: seq<int>)
    requires HistoryLeads(s, t) && Holds(s, shard, c, last, indices)
    ensures Holds(t, shard, c, last, indices)
  {
    forall k | 0 <= k < |indices| ensures Bound(t, shard, indices[k]) {
      assert Bound(s, shard, indices[k]);
      assert SameBinding(s, t, s.issued[(shard, indices[k])].0);
    }
    assert forall k :: 0 <= k < |indices| ==> Bound(s, shard, indices[k]);
    FoldFrame(s.issued, t.issued, shard, indices);
  }

  lemma SettledFrame(s: State, t: State, shard: int, r: Replica)
    requires HistoryLeads(s, t) && Settled(s, shard, r)
    ensures Settled(t, shard, r)
  {
    hide HistoryLeads, Quiescent, Holds;
    HoldsFrame(s, t, shard, r.collection, r.appliedIndex, r.Applied());
  }

  // ---------------------------------------------------------------- one replica

  lemma CommitSettles(s: State, shard: int, r: Replica, e: Entry)
    requires Settled(s, shard, r) && JournalOk(s, shard, r) && Registered(s, shard, e) && JournalPrepare(r.journal, e).Ok?
    ensures Settled(s, shard, CommitEntry(r, e))
  {
    CommitKeepsQuiescent(r, e);
    var d := CommitEntry(r, e);
    if e.index > r.appliedIndex {
      assert d.Applied() == r.Applied() + [e.index];
      assert d.Applied()[..|r.Applied()|] == r.Applied();
      if e.index in r.journal.prepared { assert Issued(s, shard, r.journal.prepared[e.index]); }
      assert d.collection == Fold(s.issued, shard, d.Applied());
      hide Fold, Apply;
      assert Lists(s, shard, d.Applied(), d.appliedIndex);
      assert Accounts(d);
    }
  }

  /** Changing only the stamps or the uncommitted part of a settled replica. */
  lemma SameData(s: State, shard: int, r: Replica, d: Replica)
    requires Settled(s, shard, r) && WellFormed(d.journal)
    requires d == r.(term := d.term, placementEpoch := d.placementEpoch, journal := d.journal)
    requires d.journal == r.journal.(prepared := d.journal.prepared)
    ensures Settled(s, shard, d) && Keeps(r, d)
  {
    hide Fold;
  }

  lemma InstallSettles(s: State, shard: int, d: Replica)
    requires Holds(s, shard, d.collection, d.appliedIndex, d.seed) && d.own == [] && d.journal == Journal(map[], {}, d.appliedIndex)
    ensures Settled(s, shard, d)
  {
    hide Fold;
    assert d.Applied() == d.seed;
    forall i | i in d.seed ensures i <= d.appliedIndex {
      var k :| 0 <= k < |d.seed| && d.seed[k] == i;
    }
  }

  ghost predicate OpHolds(s: State, shard: int, op: Op) {
    (op.Commit? ==> Registered(s, shard, op.entry)) && (op.Install? ==> Holds(s, shard, op.rows, op.index, op.applied))
  }

  /** Every durable state inside an operation on an open shard recovers to a settled one that has
      moved as the operation allows, and the last is settled as it is. */
  lemma StageSettles(s: State, shard: int, r: Replica, op: Op, k: nat)
    requires Settled(s, shard, r) && JournalOk(s, shard, r) && OpHolds(s, shard, op)
    requires k < |Stages(shard, s.meta.dimension, r, op)|
    ensures var stages := Stages(shard, s.meta.dimension, r, op); var d := stages[k];
      && WellFormed(d.journal) && Settled(s, shard, Reopen(d)) && Moves(r, Reopen(d), op)
      && (k == |stages| - 1 ==> Quiescent(d))
  {
    var stages := Stages(shard, s.meta.dimension, r, op);
    var d := stages[k];
    if d == r {
      ReopenQuiescent(r);
    } else {
      match op
      case Configure(_, _) => SameData(s, shard, r, d); ReopenQuiescent(d);
      case Prepare(e) => SameData(s, shard, r, d); ReopenQuiescent(d);
      case Install(_, _, _, _, _) => InstallSettles(s, shard, d); ReopenQuiescent(d);
      case Commit(e) => CommitStageSettles(s, shard, r, e, k);
    }
  }

  lemma CommitStageSettles(s: State, shard: int, r: Replica, e: Entry, k: nat)
    requires Settled(s, shard, r) && JournalOk(s, shard, r) && Registered(s, shard, e) && JournalPrepare(r.journal, e).Ok?
    requires k < |CommitStages(r, e)|
    ensures var d := CommitStages(r, e)[k];
      && WellFormed(d.journal) && Settled(s, shard, Reopen(d)) && Moves(r, Reopen(d), Commit(e))
      && (k == |CommitStages(r, e)| - 1 ==> Quiescent(d))
  {
    assert Quiescent(r);
    hide Settled, Registered, JournalOk;
    RecoveredStage(r, e, k);
    CommitKeepsQuiescent(r, e);
    if k < 2 {
      var d := CommitStages(r, e)[k];
      SameData(s, shard, r, d);
      ReopenQuiescent(d);
    } else {
      CommitSettles(s, shard, r, e);
      CommitMoves(r, e);
    }
  }

  // ---------------------------------------------------------------- steps

  /** How one step moves the list of a replica, each disk seen as its recovery. A marker is written
      only on an open shard. */
  ghost predicate ViewStep(s: State, t: State, n: Node, shard: int) {
    && WellFormed(At(s, n, shard).journal) && WellFormed(At(t, n, shard).journal)
    && var r, d := Reopen(At(s, n, shard)), Reopen(At(t, n, shard));
      && (Keeps(r, d) || (exists index :: Appends(r, d, index))
          || (s.pc.Exported? && s.pc.node == n && s.pc.shard == shard && Seeds(d, s.pc.index, s.pc.applied)))
      && (At(t, n, shard).journal.committed != At(s, n, shard).journal.committed ==> At(s, n, shard) == r)
  }

  lemma StateAfterStage(s: State, n: Node, shard: int, op: Op, k: nat)
    requires DiskHolds(s, n, shard) && JournalOk(s, shard, At(s, n, shard)) && OpHolds(s, shard, op)
    requires k < |RpcStages(s, n, shard, op)|
    ensures var stages := RpcStages(s, n, shard, op); var d := stages[k];
      && WellFormed(d.journal) && Settled(s, shard, Reopen(d)) && Moves(Reopen(At(s, n, shard)), Reopen(d), op)
      && (k == |stages| - 1 && ((n, shard) in s.open || op.Configure?) ==> Quiescent(d))
      && (d.journal.committed != At(s, n, shard).journal.committed ==> At(s, n, shard) == Reopen(At(s, n, shard)))
  {
    hide Settled, OpHolds, Stages, ReopenStages;
    var r := At(s, n, shard);
    if (n, shard) in s.open {
      ReopenQuiescent(r);
      StageSettles(s, shard, r, op, k);
    } else if op.Configure? {
      var before := |ReopenStages(r)|;
      if k < before {
        RecoveryIsRestartable(r, ReopenStages(r)[k]);
      } else {
        RecoveredJournal(s, shard, r);
        StageSettles(s, shard, Reopen(r), op, k - before);
        ConfigureKeepsJournal(shard, s.meta.dimension, Reopen(r), op, k - before);
      }
    }
  }

  lemma ConfigureKeepsJournal(shard: int, dimension: int, r: Replica, op: Op, k: nat)
    requires op.Configure? && k < |Stages(shard, dimension, r, op)|
    ensures Stages(shard, dimension, r, op)[k].journal == r.journal
  {
  }

  lemma RecoveredJournal(s: State, shard: int, r: Replica)
    requires JournalOk(s, shard, r)
    ensures JournalOk(s, shard, Reopen(r)) && Reopen(r).journal == r.journal
  {
    ReplayFrame(r, CommittedAfter(r.journal, r.appliedIndex), Reopen(r));
  }

  /** An RPC leaves one disk at one of its stages; if the shard is then open, at the last. */
  lemma RpcShape(s: State, n: Node, shard: int, op: Op, out: Outcome) returns (k: nat)
    ensures var t, stages := AfterRpc(s, n, shard, op, out), RpcStages(s, n, shard, op);
      && k < |stages|
      && t.meta == s.meta && t.issued == s.issued && t.acks == s.acks && t.open <= s.open + {(n, shard)}
      && ((t.disks == s.disks && t.open == s.open) ||
          (t.disks == s.disks[(n, shard) := stages[k]]
           && ((n, shard) in t.open ==> k == |stages| - 1 && ((n, shard) in s.open || op.Configure?))))
  {
    hide RpcStages;
    var stages := RpcStages(s, n, shard, op);
    k := if out.CrashAt? && out.stage < |stages| then out.stage else |stages| - 1;
  }

  lemma OneDiskHolds(s: State, t: State, n: Node, shard: int, d: Replica)
    requires DisksHold(s) && t.meta == s.meta && t.issued == s.issued && t.acks == s.acks
    requires t.disks == s.disks[(n, shard) := d] && t.open <= s.open + {(n, shard)}
    requires WellFormed(d.journal) && Settled(s, shard, Reopen(d)) && ((n, shard) in t.open ==> Quiescent(d))
    ensures DisksHold(t)
  {
    hide Settled, Quiescent, Reopen;
    SameHistory(s, t);
    forall m, x | x in t.meta.shards ensures DiskHolds(t, m, x) {
      if (m, x) == (n, shard) {
        SettledFrame(s, t, shard, Reopen(d));
      } else {
        assert DiskHolds(s, m, x);
        SettledFrame(s, t, x, Reopen(At(s, m, x)));
      }
    }
  }

  /** The operation the step sends is one of the kinds that `ViewStep` allows. */
  ghost predicate SentBy(s: State, n: Node, shard: int, op: Op) {
    op.Install? ==> s.pc.Exported? && s.pc.node == n && s.pc.shard == shard && s.pc.index == op.index && s.pc.applied == op.applied
  }

  ghost predicate Views(s: State, t: State) {
    forall n, shard :: shard in s.meta.shards ==> ViewStep(s, t, n, shard)
  }

  lemma SameDiskViews(s: State, t: State, n: Node, shard: int)
    requires DiskHolds(s, n, shard) && At(t, n, shard) == At(s, n, shard)
    ensures ViewStep(s, t, n, shard)
  {
    hide Reopen, Settled;
  }

  lemma RpcHolds(w: World, s: State, n: Node, shard: int, op: Op, out: Outcome, t: State)
    requires Core(w, s) && DisksHold(s) && shard in s.meta.shards && OpHolds(s, shard, op) && SentBy(s, n, shard, op)
    requires t == AfterRpc(s, n, shard, op, out).(pc := t.pc)
    ensures DisksHold(t) && Views(s, t)
  {
    hide Validate, IssuedOk, TableOk, AcksOk, MajorityCaughtUp, DisksOk, Settled, OpHolds, RpcStages, AfterRpc;
    PlacementOf(w, s, shard);
    FreshOk(s, n, shard);
    assert DiskHolds(s, n, shard);
    var k := RpcShape(s, n, shard, op, out);
    if t.disks == s.disks && t.open == s.open {
      SameHistory(s, t);
      hide DiskHolds, Quiescent, ViewStep;
      MetadataStepHolds(s, t);
    } else {
      StateAfterStage(s, n, shard, op, k);
      var d := RpcStages(s, n, shard, op)[k];
      assert At(t, n, shard) == d;
      assert ViewStep(s, t, n, shard);
      hide DiskHolds, Quiescent, ViewStep;
      OneDiskHolds(s, t, n, shard, d);
      forall m, x | x in s.meta.shards ensures ViewStep(s, t, m, x) {
        if (m, x) != (n, shard) { SameDiskViews(s, t, m, x); }
      }
    }
  }

  lemma SameHistory(s: State, t: State)
    requires t.issued == s.issued && t.meta == s.meta && t.acks == s.acks
    ensures HistoryLeads(s, t)
  {
  }

  /** Steps that touch no disk: the log only grows and shards only close. */
  lemma MetadataStepHolds(s: State, t: State)
    requires DisksHold(s) && HistoryLeads(s, t) && t.disks == s.disks && t.open <= s.open && t.meta.shards.Keys == s.meta.shards.Keys
    ensures DisksHold(t) && Views(s, t)
  {
    hide HistoryLeads, Settled, ViewStep;
    forall n, shard | shard in t.meta.shards ensures DiskHolds(t, n, shard) && ViewStep(s, t, n, shard) {
      assert DiskHolds(s, n, shard);
      SettledFrame(s, t, shard, Reopen(At(s, n, shard)));
      SameDiskViews(s, t, n, shard);
    }
  }

  /** An open source exports a collection that is the log at its list. */
  lemma ExportHolds(s: State, source: Node, shard: int)
    requires DisksHold(s) && shard in s.meta.shards && (source, shard) in s.open
    ensures var r := At(s, source, shard); Holds(s, shard, r.collection, r.appliedIndex, r.Applied())
  {
    assert DiskHolds(s, source, shard);
    ReopenQuiescent(At(s, source, shard));
  }

  /** What the program counter says about the operation the step sends. */
  ghost predicate StepOpHolds(s: State, step: Step) {
    match step
    case PrepareRpc(_) => s.pc.Preparing? && s.pc.entry.shardId in s.meta.shards && OpHolds(s, s.pc.entry.shardId, Prepare(s.pc.entry))
    case CommitRpc(_) => s.pc.Committing? && s.pc.entry.shardId in s.meta.shards && OpHolds(s, s.pc.entry.shardId, Commit(s.pc.entry))
    case ConfigureRpc(shard, _, _) => forall term, epoch :: OpHolds(s, shard, Configure(term, epoch))
    case RebalanceConfigure(_) => s.pc.Exported? && forall term, epoch :: OpHolds(s, s.pc.shard, Configure(term, epoch))
    case InstallRpc(_) =>
      s.pc.Exported? && forall term, epoch :: OpHolds(s, s.pc.shard, Install(s.pc.rows, s.pc.index, term, epoch, s.pc.applied))
    case CopyRpc(_) =>
      && s.pc.Copying? && s.pc.shard in s.meta.shards && s.pc.entries != []
      && OpHolds(s, s.pc.shard, Prepare(s.pc.entries[0])) && OpHolds(s, s.pc.shard, Commit(s.pc.entries[0]))
    case _ => true
  }

  lemma PcSaysOpHolds(w: World, s: State, step: Step)
    requires PcOk(w, s) && History(s) && Enabled(w, s, step) && IsRpc(step)
    ensures StepOpHolds(s, step)
  {
    hide Holds, DiskHolds, Registered;
  }

  lemma RpcStepHolds(w: World, s: State, step: Step)
    requires Core(w, s) && Enabled(w, s, step) && IsRpc(step) && DisksHold(s) && StepOpHolds(s, step)
    ensures DisksHold(Next(w, s, step)) && Views(s, Next(w, s, step))
  {
    hide Core, AfterRpc, Answers, DisksHold, OpHolds, Views;
    var t := Next(w, s, step);
    match step
    case PrepareRpc(out) => RpcHolds(w, s, s.pc.todo[0], s.pc.entry.shardId, Prepare(s.pc.entry), out, t);
    case CommitRpc(out) => RpcHolds(w, s, s.pc.todo[0], s.pc.entry.shardId, Commit(s.pc.entry), out, t);
    case ConfigureRpc(shard, n, out) =>
      RpcHolds(w, s, n, shard, Configure(s.meta.shards[shard].term, s.meta.shards[shard].placementEpoch), out, t);
    case RebalanceConfigure(out) =>
      var p := s.meta.shards[s.pc.shard];
      RpcHolds(w, s, s.pc.node, s.pc.shard, Configure(p.term, p.placementEpoch + 1), out, t);
    case InstallRpc(out) =>
      var p := s.meta.shards[s.pc.shard];
      RpcHolds(w, s, s.pc.node, s.pc.shard, Install(s.pc.rows, s.pc.index, p.term, p.placementEpoch + 1, s.pc.applied), out, t);
    case CopyRpc(out) =>
      var e := s.pc.entries[0];
      RpcHolds(w, s, s.pc.node, s.pc.shard, if s.pc.prepared then Commit(e) else Prepare(e), out, t);
  }

  lemma QuietStep(w: World, s: State, step: Step)
    requires Enabled(w, s, step) && !IsRpc(step)
    ensures Next(w, s, step).disks == s.disks && Next(w, s, step).open <= s.open
  {
  }

  lemma StepKeepsDisksHold(w: World, s: State, step: Step)
    requires CollisionFree(w) && Inv(w, s) && History(s) && Enabled(w, s, step)
    ensures DisksHold(Next(w, s, step)) && Views(s, Next(w, s, step))
  {
    hide PcOk, Core, Next, Enabled, DisksHold, Leads, StepOpHolds, Views;
    if IsRpc(step) {
      PcSaysOpHolds(w, s, step);
      RpcStepHolds(w, s, step);
    } else {
      StepLeads(w, s, step);
      LeadsParts(s, Next(w, s, step));
      QuietStep(w, s, step);
      MetadataStepHolds(s, Next(w, s, step));
    }
  }

  lemma LeadsParts(s: State, t: State)
    requires Leads(s, t)
    ensures HistoryLeads(s, t) && t.meta.shards.Keys == s.meta.shards.Keys
  {
  }

  /** An export in flight was taken by this step or is carried over. */
  lemma ExportCarried(w: World, s: State, step: Step)
    requires Enabled(w, s, step) && Next(w, s, step).pc.Exported?
    ensures var pc := Next(w, s, step).pc;
      if step.BeginRebalance? then
        && step.shard in s.meta.shards && (step.source, step.shard) in s.open && pc.shard == step.shard
        && var r := At(s, step.source, step.shard);
           pc.rows == r.collection && pc.index == r.appliedIndex && pc.applied == r.Applied()
      else s.pc.Exported? && pc.shard == s.pc.shard && pc.rows == s.pc.rows && pc.index == s.pc.index && pc.applied == s.pc.applied
  {
    hide AfterRpc, Answers, Best;
    if step.ConfigureRpc? {
      var p := s.meta.shards[step.shard];
      RpcKeepsPc(s, step.node, step.shard, Configure(p.term, p.placementEpoch), step.outcome);
    }
  }

  lemma StepKeepsHistory(w: World, s: State, step: Step)
    requires CollisionFree(w) && Inv(w, s) && History(s) && Enabled(w, s, step)
    ensures History(Next(w, s, step)) && Views(s, Next(w, s, step))
  {
    hide Inv, Next, Enabled, Leads, Holds, DisksHold, Views;
    var t := Next(w, s, step);
    StepLeads(w, s, step);
    LeadsParts(s, t);
    StepKeepsDisksHold(w, s, step);
    hide HistoryLeads;
    if t.pc.Exported? {
      ExportCarried(w, s, step);
      if step.BeginRebalance? { ExportHolds(s, step.source, step.shard); }
      HoldsFrame(s, t, t.pc.shard, t.pc.rows, t.pc.index, t.pc.applied);
    }
  }

  lemma InitHistory(w: World, s: State, nodes: seq<Node>)
    requires Init(w, s, nodes)
    ensures History(s)
  {
    forall n, shard | shard in s.meta.shards ensures DiskHolds(s, n, shard) {
      assert At(s, n, shard) == Fresh;
      assert Quiescent(Fresh);
      ReopenQuiescent(Fresh);
      assert Fresh.Applied() == [] && Fresh.collection == Fold(s.issued, shard, []);
    }
  }

  lemma {:induction false} ReachableHistory(w: World, run: seq<State>, i: nat)
    requires CollisionFree(w) && Run(w, run) && i < |run|
    ensures History(run[i])
  {
    hide Inv, Enabled, Next, History, Views;
    if i == 0 {
      var nodes :| Init(w, run[0], nodes);
      InitHistory(w, run[0], nodes);
    } else {
      ReachableHistory(w, run, i - 1);
      ReachableInv(w, run, i - 1);
      assert Cluster.Follows(w, run[i - 1], run[i]);
      var step :| Enabled(w, run[i - 1], step) && run[i] == Next(w, run[i - 1], step);
      StepKeepsHistory(w, run[i - 1], step);
    }
  }

  /** Over every run, a step moves every replica's list in one of the three ways. */
  lemma RunViews(w: World, run: seq<State>, i: nat, n: Node, shard: int)
    requires CollisionFree(w) && Run(w, run) && i + 1 < |run| && shard in run[i].meta.shards
    ensures ViewStep(run[i], run[i + 1], n, shard)
  {
    hide Inv, Enabled, Next, History, ViewStep;
    ReachableHistory(w, run, i);
    ReachableInv(w, run, i);
    assert Cluster.Follows(w, run[i], run[i + 1]);
    var step :| Enabled(w, run[i], step) && run[i + 1] == Next(w, run[i], step);
    StepKeepsHistory(w, run[i], step);
  }

  /** In every reachable state an open replica's collection is the agreed log applied at exactly the
      replica's own list: ascending, registered, ending at its applied index. What the replica
      applied itself its journal committed; the rest came with its snapshot. A closed replica
      recovers to such a state. */
  lemma CollectionsFollowTheLog(w: World, run: seq<State>, i: nat, n: Node, shard: int)
    requires CollisionFree(w) && Run(w, run) && i < |run| && shard in run[i].meta.shards
    ensures WellFormed(At(run[i], n, shard).journal)
    ensures var r := Reopen(At(run[i], n, shard));
      && ((n, shard) in run[i].open ==> r == At(run[i], n, shard)) && r.journal == At(run[i], n, shard).journal
      && Lists(run[i], shard, r.Applied(), r.appliedIndex)
      && r.collection == Fold(run[i].issued, shard, r.Applied())
      && Accounts(r) && Quiescent(r)
  {
    ReachableHistory(w, run, i);
    var r := At(run[i], n, shard);
    assert DiskHolds(run[i], n, shard);
    if (n, shard) in run[i].open { ReopenQuiescent(r); }
    ReplayFrame(r, CommittedAfter(r.journal, r.appliedIndex), Reopen(r));
  }
}
