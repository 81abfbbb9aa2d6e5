/** The durable state of one shard replica, every durable write its operations perform, and
    what a crash between any two of those writes leaves behind. */
module Replicas {
  import opened Basics
  import opened Protocol

  // ---------------------------------------------------------------- collection

  datatype Point = Point(vector: seq<real>, fields: seq<PayloadField>, sparse: seq<SparseElement>)
  type Collection = map<int, Point>

  /** The first durable half of `_apply`: `delete`, or `upsert` of vector and payload. */
  function ApplyDense(c: Collection, m: Mutation): Collection {
    match m
    case Delete(id) => c - {id}
    case Upsert(id, vector, fields, _) => c[id := Point(vector, fields, if id in c then c[id].sparse else [])]
  }

  /** The second half: a non-empty sparse list replaces the stored one. */
  function ApplySparse(c: Collection, m: Mutation): Collection {
    if m.Upsert? && m.sparse != [] && m.id in c then c[m.id := c[m.id].(sparse := m.sparse)] else c
  }

  function Apply(c: Collection, m: Mutation): Collection {
    ApplySparse(ApplyDense(c, m), m)
  }

  /** What a mutation does to a collection, said field by field. */
  ghost predicate Applied(c: Collection, m: Mutation, d: Collection) {
    && (forall id :: id != m.id ==> (id in d <==> id in c) && (id in c && id in d ==> d[id] == c[id]))
    && (m.Delete? ==> m.id !in d)
    && (m.Upsert? ==>
          && m.id in d && d[m.id].vector == m.vector && d[m.id].fields == m.fields
          && d[m.id].sparse == (if m.sparse != [] then m.sparse else if m.id in c then c[m.id].sparse else []))
  }

  lemma ApplyApplies(c: Collection, m: Mutation)
    ensures Applied(c, m, Apply(c, m))
  {
  }

  /** Redoing a mutation over any part of itself gives the completed mutation. */
  lemma RedoIsIdempotent(c: Collection, m: Mutation)
    ensures Apply(ApplyDense(c, m), m) == Apply(c, m)
    ensures Apply(Apply(c, m), m) == Apply(c, m)
  {
    var d := ApplyDense(c, m);
    assert ApplyDense(d, m) == d;
    if m.Upsert? && m.sparse != [] {
      assert ApplyDense(Apply(c, m), m) == Apply(c, m);
      assert Apply(Apply(c, m), m) == Apply(c, m);
    }
  }

  ghost function FoldApply(c: Collection, es: seq<Entry>): Collection
    decreases |es|
  {
    if es == [] then c else FoldApply(Apply(c, es[0].mutation), es[1..])
  }

  // ---------------------------------------------------------------- replica and operations

  /** The durable state, and a history that no operation reads: `seed` is the list of indices whose
      mutations came with the installed snapshot, `own` those the replica has applied itself since. */
  datatype Replica = Replica(
    term: int, placementEpoch: int, appliedIndex: int, journal: Journal, collection: Collection,
    seed: seq<int>, own: seq<int>)
  {
    /** The indices whose mutations the collection has received, in the order of application. */
    function Applied(): seq<int> { seed + own }
  }

  const Fresh := Replica(0, 0, 0, EmptyJournal, map[], [], [])

  /** Between operations every committed index is applied, and the applied index is the
      newest of the installed snapshot and the committed indices. */
  ghost predicate Quiescent(r: Replica) {
    && WellFormed(r.journal)
    && (forall i :: i in r.journal.committed ==> i <= r.appliedIndex)
    && r.journal.snapshotIndex <= r.appliedIndex
    && (r.appliedIndex == r.journal.snapshotIndex || r.appliedIndex in r.journal.committed)
  }

  datatype Op =
    | Configure(term: int, placementEpoch: int)
    | Prepare(entry: Entry)
    | Commit(entry: Entry)
    | Install(rows: Collection, index: int, term: int, placementEpoch: int, applied: seq<int>)

  predicate CurrentEpoch(shard: int, r: Replica, e: Entry) {
    e.shardId == shard && e.term == r.term && e.placementEpoch == r.placementEpoch
  }

  /** The operation answers instead of raising. */
  predicate Accepts(shard: int, dimension: int, r: Replica, op: Op) {
    match op
    case Configure(term, epoch) => term >= r.term && epoch >= r.placementEpoch
    case Prepare(e) =>
      && CurrentEpoch(shard, r, e) && ValidMutation(e.mutation, Some(dimension))
      && e.index > r.journal.snapshotIndex && JournalPrepare(r.journal, e).Ok?
    case Commit(e) =>
      && CurrentEpoch(shard, r, e) && ValidMutation(e.mutation, Some(dimension))
      && JournalPrepare(r.journal, e).Ok?
    case Install(_, index, term, epoch, _) =>
      index >= r.appliedIndex && term >= r.term && epoch >= r.placementEpoch
  }

  /** The durable states `commit` passes through: unchanged, prepare record, commit marker,
      dense half, sparse half, published applied index. */
  function CommitStages(r: Replica, e: Entry): (stages: seq<Replica>)
    requires JournalPrepare(r.journal, e).Ok?
    ensures |stages| == 3 || |stages| == 6
  {
    var r1 := r.(journal := JournalPrepare(r.journal, e).value);
    var r2 := r1.(journal := r1.journal.(committed := r1.journal.committed + {e.index}));
    if e.index > r.appliedIndex then
      var m := r2.journal.prepared[e.index].mutation;
      var r3 := r2.(collection := ApplyDense(r2.collection, m));
      var r4 := r3.(collection := ApplySparse(r3.collection, m));
      [r, r1, r2, r3, r4, r4.(appliedIndex := e.index, own := r.own + [e.index])]
    else
      [r, r1, r2]
  }

  function CommitEntry(r: Replica, e: Entry): Replica {
    if JournalPrepare(r.journal, e).Ok? then
      var stages := CommitStages(r, e);
      stages[|stages| - 1]
    else r
  }

  /** The durable states an accepted operation passes through on an open shard. A snapshot
      installation is one atomic swap, as module SnapshotSwap proves. */
  function Stages(shard: int, dimension: int, r: Replica, op: Op): (stages: seq<Replica>)
    ensures |stages| > 0
  {
    if !Accepts(shard, dimension, r, op) then [r] else
      match op
      case Configure(term, epoch) => [r, r.(term := term, placementEpoch := epoch)]
      case Prepare(e) => [r, r.(journal := JournalPrepare(r.journal, e).value)]
      case Commit(e) => CommitStages(r, e)
      case Install(rows, index, term, epoch, applied) =>
        [r, Replica(term, epoch, index, Journal(map[], {}, index), rows, applied, [])]
  }

  // ---------------------------------------------------------------- reopening after a crash

  function ApplyEntry(r: Replica, e: Entry): Replica {
    r.(collection := Apply(r.collection, e.mutation), appliedIndex := e.index, own := r.own + [e.index])
  }

  ghost function ReplayEntries(r: Replica, es: seq<Entry>): Replica
    decreases |es|
  {
    if es == [] then r else ReplayEntries(ApplyEntry(r, es[0]), es[1..])
  }

  /** Reopening a shard directory: load its state and replay committed entries. */
  ghost function Reopen(r: Replica): Replica
    requires WellFormed(r.journal)
  {
    ReplayEntries(r, CommittedAfter(r.journal, r.appliedIndex))
  }

  /** The durable states replay passes through. */
  ghost function ReplayStages(r: Replica, es: seq<Entry>): (stages: seq<Replica>)
    ensures |stages| > 0
    decreases |es|
  {
    if es == [] then [r] else
      var dense := r.(collection := ApplyDense(r.collection, es[0].mutation));
      var whole := r.(collection := Apply(r.collection, es[0].mutation));
      [r, dense, whole] + ReplayStages(ApplyEntry(r, es[0]), es[1..])
  }

  ghost function ReopenStages(r: Replica): (stages: seq<Replica>)
    requires WellFormed(r.journal)
    ensures |stages| > 0
  {
    ReplayStages(r, CommittedAfter(r.journal, r.appliedIndex))
  }

  /** Replay leaves everything but the collection and the applied index alone, and never
      lowers the applied index. */
  lemma {:induction false} ReplayFrame(r: Replica, es: seq<Entry>, d: Replica)
    requires forall k :: 0 <= k < |es| ==> es[k].index > r.appliedIndex
    requires forall i, k :: 0 <= i < k < |es| ==> es[i].index < es[k].index
    requires d in ReplayStages(r, es) || d == ReplayEntries(r, es)
    ensures d.term == r.term && d.placementEpoch == r.placementEpoch && d.journal == r.journal
    ensures d.appliedIndex >= r.appliedIndex
    decreases |es|
  {
    if es != [] {
      var r' := ApplyEntry(r, es[0]);
      if d in ReplayStages(r', es[1..]) || d == ReplayEntries(r', es[1..]) {
        ReplayFrame(r', es[1..], d);
      }
    }
  }

  lemma TailOfCommitted(j: Journal, index: int)
    requires WellFormed(j) && CommittedAfter(j, index) != []
    ensures CommittedAfter(j, index)[1..] == CommittedAfter(j, CommittedAfter(j, index)[0].index)
  {
    var es := CommittedAfter(j, index);
    var all, rest := SortedSeq(IndicesAfter(j, index)), SortedSeq(IndicesAfter(j, es[0].index));
    assert es[0].index == all[0];
    forall x ensures x in all[1..] <==> x in rest {
      assert x in all <==> x in IndicesAfter(j, index);
      assert x in rest <==> x in IndicesAfter(j, es[0].index);
      assert x in all[1..] <==> x in all && x != all[0];
    }
    AscendingUnique(all[1..], rest);
  }

  /** A crash anywhere during recovery changes nothing about what the next recovery reaches. */
  lemma {:induction false} RecoveryIsRestartable(r: Replica, d: Replica)
    requires WellFormed(r.journal)
    requires d in ReopenStages(r)
    ensures d.journal == r.journal && Reopen(d) == Reopen(r)
    decreases |CommittedAfter(r.journal, r.appliedIndex)|
  {
    var es := CommittedAfter(r.journal, r.appliedIndex);
    if es != [] {
      var r' := ApplyEntry(r, es[0]);
      ReopenUnfolds(r);
      RedoIsIdempotent(r.collection, es[0].mutation);
      TailOfCommitted(r.journal, r.appliedIndex);
      hide CommittedAfter, Apply, ApplyDense, WellFormed;
      if d in ReopenStages(r') {
        hide ReplayStages, ReplayEntries;
        RecoveryIsRestartable(r', d);
      } else {
        assert ApplyEntry(d, es[0]) == r';
        ReopenUnfolds(d);
      }
    }
  }

  /** The first replayed entry, and what is left. */
  lemma ReopenUnfolds(r: Replica)
    requires WellFormed(r.journal) && CommittedAfter(r.journal, r.appliedIndex) != []
    ensures var e := CommittedAfter(r.journal, r.appliedIndex)[0]; var next := ApplyEntry(r, e);
      && Reopen(r) == Reopen(next) && next.journal == r.journal
      && ReopenStages(r) == [r, r.(collection := ApplyDense(r.collection, e.mutation)), r.(collection := Apply(r.collection, e.mutation))]
                            + ReopenStages(next)
  {
    TailOfCommitted(r.journal, r.appliedIndex);
    hide CommittedAfter, Apply, ApplyDense, WellFormed;
  }

  lemma PrepareThenCommit(r: Replica, e: Entry)
    requires JournalPrepare(r.journal, e).Ok?
    ensures var p := r.(journal := JournalPrepare(r.journal, e).value);
      JournalPrepare(p.journal, e).Ok? && CommitEntry(p, e) == CommitEntry(r, e)
      && CommitEntry(r, e).term == r.term && CommitEntry(r, e).placementEpoch == r.placementEpoch
  {
  }

  /** A chain of interrupted recoveries: each one is cut at some durable state of its own. */
  ghost predicate InterruptedRecoveries(ds: seq<Replica>) {
    && |ds| > 0
    && WellFormed(ds[0].journal)
    && (|ds| > 1 ==> ds[1] in ReopenStages(ds[0]) && InterruptedRecoveries(ds[1..]))
  }

  lemma {:induction false} RecoveriesConverge(ds: seq<Replica>)
    requires InterruptedRecoveries(ds)
    ensures ds[|ds| - 1].journal == ds[0].journal
    ensures Reopen(ds[|ds| - 1]) == Reopen(ds[0])
    ensures ds[|ds| - 1].appliedIndex >= ds[0].appliedIndex
  {
    if |ds| > 1 {
      RecoveriesConverge(ds[1..]);
      RecoveryIsRestartable(ds[0], ds[1]);
      ReplayFrame(ds[0], CommittedAfter(ds[0].journal, ds[0].appliedIndex), ds[1]);
    }
  }

  lemma ReopenQuiescent(r: Replica)
    requires Quiescent(r)
    ensures Reopen(r) == r && ReopenStages(r) == [r]
  {
    assert CommittedAfter(r.journal, r.appliedIndex) == [];
  }

  lemma CommitKeepsQuiescent(r: Replica, e: Entry)
    requires Quiescent(r)
    ensures Quiescent(CommitEntry(r, e))
  {
  }

  /** Crash-atomicity of `commit`. The replica stops after any durable write `k` of a commit,
      every later recovery is itself interrupted any number of times, and the recovery that
      completes gives the collection and applied index of a replica that never received the
      commit (before the marker) or completed it (from the marker on). */
  lemma CommitIsCrashAtomic(r: Replica, e: Entry, k: nat, ds: seq<Replica>)
    requires Quiescent(r) && JournalPrepare(r.journal, e).Ok?
    requires k < |CommitStages(r, e)|
    requires InterruptedRecoveries(ds) && ds[0] == CommitStages(r, e)[k]
    ensures WellFormed(ds[|ds| - 1].journal)
    ensures
      var d := Reopen(ds[|ds| - 1]);
      && Quiescent(d) && d.term == r.term && d.placementEpoch == r.placementEpoch
      && (k < 2 ==> d.collection == r.collection && d.appliedIndex == r.appliedIndex)
      && (k < 2 ==> d.journal.committed == r.journal.committed)
      && (k >= 2 ==> d == CommitEntry(r, e))
      && d.appliedIndex >= ds[|ds| - 1].appliedIndex >= r.appliedIndex
  {
    RecoveredStage(r, e, k);
    hide CommitStages, CommitEntry, JournalPrepare, ReplayEntries;
    RecoveriesConverge(ds);
    hide InterruptedRecoveries;
    var last := ds[|ds| - 1];
    ReplayFrame(last, CommittedAfter(last.journal, last.appliedIndex), Reopen(last));
  }

  /** One uninterrupted recovery from each stage of a commit. */
  lemma RecoveredStage(r: Replica, e: Entry, k: nat)
    requires Quiescent(r) && JournalPrepare(r.journal, e).Ok?
    requires k < |CommitStages(r, e)|
    ensures WellFormed(CommitStages(r, e)[k].journal) && CommitStages(r, e)[k].appliedIndex >= r.appliedIndex
    ensures
      var d := Reopen(CommitStages(r, e)[k]);
      && Quiescent(d) && d.term == r.term && d.placementEpoch == r.placementEpoch
      && (k < 2 ==> d.collection == r.collection && d.appliedIndex == r.appliedIndex)
      && (k < 2 ==> d.journal.committed == r.journal.committed)
      && (k >= 2 ==> d == CommitEntry(r, e))
  {
    var d := CommitStages(r, e)[k];
    CommitKeepsQuiescent(r, e);
    if k < 2 {
      ReopenQuiescent(d);
    } else if e.index <= r.appliedIndex || k == 5 {
      assert d == CommitEntry(r, e);
      ReopenQuiescent(d);
    } else {
      var es := CommittedAfter(d.journal, d.appliedIndex);
      assert es == [d.journal.prepared[e.index]] by { OnlyOneAbove(d.journal, d.appliedIndex, e.index); }
      RedoIsIdempotent(r.collection, es[0].mutation);
      var whole := ApplyEntry(d, es[0]);
      assert ReplayEntries(d, es) == ReplayEntries(whole, []);
    }
  }

  lemma OnlyOneAbove(j: Journal, index: int, only: int)
    requires WellFormed(j)
    requires only in j.committed && only > index
    requires forall i :: i in j.committed && i > index ==> i == only
    ensures CommittedAfter(j, index) == [j.prepared[only]]
  {
    AscendingUnique(SortedSeq(IndicesAfter(j, index)), [only]);
  }
}
