/** `ReplicaShard` as an object: every method is proved against the value-level operations of
    module Replicas, and records each durable state it passes through. */
module ReplicaShards {
  import opened Basics
  import opened Protocol
  import opened Replicas
  import opened Journals
  import Deliveries

  /** `replica-state.json`. */
  datatype StateFile = StateFile(term: int, placementEpoch: int, appliedIndex: int)

  /** `validate_replicated_mutation`: the loops over payload and sparse elements remember the names and
      terms they have seen. */
  method ValidateMutation(m: Mutation, dimension: Option<int>) returns (ok: bool)
    ensures ok <==> ValidMutation(m, dimension)
  {
    if m.Delete? { return true; }
    if m.vector == [] || (dimension.Some? && |m.vector| != dimension.value) { return false; }
    var names := {};
    for i := 0 to |m.fields|
      invariant forall n :: n in names <==> exists k :: 0 <= k < i && m.fields[k].name == n
      invariant forall k :: 0 <= k < i ==> m.fields[k].name != ""
      invariant forall j, k :: 0 <= j < k < i ==> m.fields[j].name != m.fields[k].name
    {
      if m.fields[i].name == "" || m.fields[i].name in names { return false; }
      names := names + {m.fields[i].name};
    }
    var terms := {};
    for i := 0 to |m.sparse|
      invariant forall t :: t in terms <==> exists k :: 0 <= k < i && m.sparse[k].termId == t
      invariant forall k :: 0 <= k < i ==> m.sparse[k].termId >= 0
      invariant forall j, k :: 0 <= j < k < i ==> m.sparse[j].termId != m.sparse[k].termId
    {
      if m.sparse[i].termId < 0 || m.sparse[i].termId in terms { return false; }
      terms := terms + {m.sparse[i].termId};
    }
    ok := true;
  }

  class ReplicaShard {
    const shardId: int
    const dimension: int
    const journal: ReplicaJournal
    var term: int
    var placementEpoch: int
    var appliedIndex: int
    var collection: Collection
    var stateFile: StateFile
    /** Every durable state so far, in the order the writes happened. */
    ghost var written: seq<Replica>
    /** The history that `Replica` carries. */
    ghost var seed: seq<int>
    ghost var own: seq<int>

    /** What a crash at this moment would leave on disk. */
    ghost function Disk(): Replica
      reads this, journal
    {
      Replica(stateFile.term, stateFile.placementEpoch, stateFile.appliedIndex, journal.State(), collection, seed, own)
    }

    ghost predicate Valid()
      reads this, journal
    {
      && journal.Valid()
      && stateFile == StateFile(term, placementEpoch, appliedIndex)
    }

    constructor (shardId: int, dimension: int, codec: Codec)
      requires Sound(codec)
      ensures Valid() && fresh(journal) && Disk() == Fresh && written == []
      ensures this.shardId == shardId && this.dimension == dimension && journal.codec == codec
    {
      this.shardId, this.dimension := shardId, dimension;
      journal := new ReplicaJournal(codec);
      term, placementEpoch, appliedIndex := 0, 0, 0;
      collection := map[];
      stateFile := StateFile(0, 0, 0);
      written, seed, own := [], [], [];
    }

    method PublishState()
      modifies this`stateFile, this`written
      ensures stateFile == StateFile(term, placementEpoch, appliedIndex)
      ensures written == old(written) + [Disk()]
    {
      stateFile := StateFile(term, placementEpoch, appliedIndex);
      written := written + [Disk()];
    }

    method Configure(newTerm: int, newEpoch: int) returns (ok: bool)
      requires Valid()
      modifies this
      ensures Valid()
      ensures ok <==> Accepts(shardId, dimension, old(Disk()), Op.Configure(newTerm, newEpoch))
      ensures Disk() == (if ok then old(Disk()).(term := newTerm, placementEpoch := newEpoch) else old(Disk()))
    {
      if newTerm < term || newEpoch < placementEpoch { return false; }
      term, placementEpoch := newTerm, newEpoch;
      PublishState();
      ok := true;
    }

    method Prepare(e: Entry) returns (ok: bool)
      requires Valid()
      modifies this, journal
      ensures Valid()
      ensures ok <==> journal.codec.valid(e) && Accepts(shardId, dimension, old(Disk()), Op.Prepare(e))
      ensures Disk() == if ok then old(Disk()).(journal := JournalPrepare(old(Disk()).journal, e).value) else old(Disk())
    {
      if e.shardId != shardId || e.term != term || e.placementEpoch != placementEpoch { return false; }
      var valid := ValidateMutation(e.mutation, Some(dimension));
      if !valid || e.index <= journal.snapshotIndex { return false; }
      ok := journal.Prepare(e);
      written := written + [Disk()];
    }

    /** The two durable halves of applying a mutation. */
    method ApplyMutation(m: Mutation)
      modifies this`collection, this`written
      ensures collection == Apply(old(collection), m)
      ensures m.Delete? ==> m.id !in collection
      ensures m.Upsert? ==> m.id in collection && collection[m.id].vector == m.vector && collection[m.id].fields == m.fields
      ensures m.Upsert? && m.sparse != [] ==> collection[m.id].sparse == m.sparse
      ensures m.Upsert? && m.sparse == [] ==> collection[m.id].sparse == if m.id in old(collection) then old(collection)[m.id].sparse else []
      ensures forall id :: id != m.id ==>
        (id in collection <==> id in old(collection)) && (id in collection ==> collection[id] == old(collection)[id])
      ensures written == old(written) +
        [old(Disk()).(collection := ApplyDense(old(collection), m)), old(Disk()).(collection := Apply(old(collection), m))]
    {
      collection := ApplyDense(collection, m);
      written := written + [Disk()];
      collection := ApplySparse(collection, m);
      written := written + [Disk()];
    }

    /** Apply the journaled mutation at an index and publish the index as applied. */
    method ApplyJournaled(i: int)
      requires Valid() && i in journal.prepared && journal.prepared[i].index == i
      modifies this
      ensures Valid() && Disk() == ApplyEntry(old(Disk()), journal.prepared[i])
      ensures
        var r, m := old(Disk()), journal.prepared[i].mutation;
        written == old(written) + [r.(collection := ApplyDense(r.collection, m)), r.(collection := Apply(r.collection, m)), Disk()]
    {
      ApplyMutation(journal.prepared[i].mutation);
      appliedIndex, own := i, own + [i];
      PublishState();
    }

    /** The journal half of `commit`: prepare record, then commit marker. */
    method Mark(e: Entry) returns (ok: bool)
      requires Valid()
      modifies this`written, journal
      ensures Valid()
      ensures ok <==> journal.codec.valid(e) && Accepts(shardId, dimension, old(Disk()), Op.Commit(e))
      ensures ok ==> Disk() == CommitStages(old(Disk()), e)[2] && written == old(written) + CommitStages(old(Disk()), e)[1..3]
      ensures !ok ==> Disk() == old(Disk()) && written == old(written)
    {
      if e.shardId != shardId || e.term != term || e.placementEpoch != placementEpoch { return false; }
      var valid := ValidateMutation(e.mutation, Some(dimension));
      if !valid { return false; }
      ok := journal.Prepare(e);
      if !ok { return; }
      written := written + [Disk()];
      var marked := journal.Commit(e.index);
      written := written + [Disk()];
    }

    /** The durable states passed through are exactly the stages whose crash-atomicity
        `CommitIsCrashAtomic` proves. */
    method Commit(e: Entry) returns (ok: bool)
      requires Valid()
      modifies this, journal
      ensures Valid()
      ensures ok <==> journal.codec.valid(e) && Accepts(shardId, dimension, old(Disk()), Op.Commit(e))
      ensures ok ==> Disk() == CommitEntry(old(Disk()), e)
      ensures ok ==> written == old(written) + CommitStages(old(Disk()), e)[1..]
      ensures !ok ==> Disk() == old(Disk()) && written == old(written)
    {
      ok := Mark(e);
      hide Accepts;
      if ok && e.index > appliedIndex {
        ApplyJournaled(e.index);
      }
    }

    /** Reopening after a crash: a new journal is loaded from the file, which may be cut at any byte,
        the rest of memory from `replica-state.json`, and committed entries above the applied index
        are replayed, least first. */
    method Recover(ghost all: seq<Record>, ghost n: nat)
      requires journal.Cut(all, n)
      modifies this, journal
      ensures Valid() && Load(journal.codec, old(journal.file)) == Ok(journal.State())
      ensures Disk() == Reopen(old(Disk()).(journal := journal.State()))
    {
      journal.Reload(all, n);
      term, placementEpoch, appliedIndex := stateFile.term, stateFile.placementEpoch, stateFile.appliedIndex;
      hide Reopen, ReplicaJournal.Valid, Load;
      ReplayCommitted();
    }

    /** `_replay_committed` */
    method ReplayCommitted()
      requires Valid()
      modifies this
      ensures Valid() && journal.State() == old(journal.State())
      ensures Disk() == Reopen(old(Disk()))
    {
      ghost var j, goal := journal.State(), Reopen(Disk());
      assert WellFormed(j);
      var pending := set i | i in journal.committed && i > appliedIndex;
      assert pending == IndicesAfter(j, appliedIndex);
      hide Reopen, ReplicaJournal.Valid, WellFormed, ApplyEntry, IndicesAfter;
      while pending != {}
        invariant Valid() && journal.State() == j && WellFormed(j)
        invariant pending == IndicesAfter(j, appliedIndex)
        invariant Reopen(Disk()) == goal
        decreases pending
      {
        LeastExists(pending);
        var i :| i in pending && forall k :: k in pending ==> i <= k;
        ReplayLeast(i);
        pending := pending - {i};
      }
      NothingToReplay(Disk());
    }

    /** One turn of the replay loop. */
    method ReplayLeast(i: int)
      requires Valid() && WellFormed(journal.State()) && i in IndicesAfter(journal.State(), appliedIndex)
      requires forall k :: k in IndicesAfter(journal.State(), appliedIndex) ==> i <= k
      modifies this
      ensures Valid() && journal.State() == old(journal.State()) && appliedIndex == i
      ensures IndicesAfter(journal.State(), appliedIndex) == old(IndicesAfter(journal.State(), appliedIndex)) - {i}
      ensures Disk() == ApplyEntry(old(Disk()), journal.State().prepared[i]) && Reopen(Disk()) == Reopen(old(Disk()))
    {
      hide Reopen, ReplicaJournal.Valid, IndicesAfter, WellFormed;
      ReopenStep(Disk(), i);
      ApplyJournaled(i);
    }
  }

  lemma ReopenStep(r: Replica, i: int)
    requires WellFormed(r.journal) && i in IndicesAfter(r.journal, r.appliedIndex)
    requires forall k :: k in IndicesAfter(r.journal, r.appliedIndex) ==> i <= k
    ensures i in r.journal.prepared && r.journal.prepared[i].index == i
    ensures IndicesAfter(r.journal, i) == IndicesAfter(r.journal, r.appliedIndex) - {i}
    ensures ApplyEntry(r, r.journal.prepared[i]).journal == r.journal
    ensures ApplyEntry(r, r.journal.prepared[i]).appliedIndex == i
    ensures Reopen(ApplyEntry(r, r.journal.prepared[i])) == Reopen(r)
  {
    FirstAndRest(r.journal, r.appliedIndex, i);
    assert r.journal.prepared[i].index == i;
    hide CommittedAfter, IndicesAfter, WellFormed, Apply;
  }

  lemma LeastIsFirst(j: Journal, after: int, i: int)
    requires WellFormed(j) && i in IndicesAfter(j, after)
    requires forall k :: k in IndicesAfter(j, after) ==> i <= k
    ensures var es := CommittedAfter(j, after); es != [] && es[0] == j.prepared[i] && es[0].index == i
  {
    var es := CommittedAfter(j, after);
    var k :| 0 <= k < |es| && es[k].index == i;
    assert es[0].index in IndicesAfter(j, after);
  }

  lemma NothingToReplay(r: Replica)
    requires WellFormed(r.journal) && IndicesAfter(r.journal, r.appliedIndex) == {}
    ensures Reopen(r) == r
  {
    assert SortedSeq(IndicesAfter(r.journal, r.appliedIndex)) == [];
  }

  // ---------------------------------------------------------------- catch-up, as the coordinator drives it

  lemma FirstAndRest(source: Journal, after: int, i: int)
    requires WellFormed(source) && i in IndicesAfter(source, after)
    requires forall k :: k in IndicesAfter(source, after) ==> i <= k
    ensures i in source.prepared && IndicesAfter(source, i) == IndicesAfter(source, after) - {i}
    ensures var es := CommittedAfter(source, after); es != [] && es[0] == source.prepared[i] && es[1..] == CommittedAfter(source, i)
  {
    assert i in source.prepared && IndicesAfter(source, i) == IndicesAfter(source, after) - {i};
    LeastIsFirst(source, after, i);
    hide CommittedAfter, IndicesAfter;
    TailOfCommitted(source, after);
  }

  lemma NothingLeft(source: Journal, after: int)
    requires WellFormed(source) && IndicesAfter(source, after) == {}
    ensures CommittedAfter(source, after) == []
  {
    assert SortedSeq(IndicesAfter(source, after)) == [];
  }

  lemma {:induction false} DeliverOneMore(r: Replica, es: seq<Entry>, k: nat)
    requires k < |es|
    ensures Deliveries.Deliver(r, es[..k + 1]) == CommitEntry(Deliveries.Deliver(r, es[..k]), es[k])
    decreases k
  {
    hide CommitEntry;
    if k == 0 {
      assert es[..1][1..] == [];
    } else {
      assert es[..k + 1][1..] == es[1..][..k] && es[..k][1..] == es[1..][..k - 1];
      DeliverOneMore(CommitEntry(r, es[0]), es[1..], k - 1);
    }
  }

  lemma TakeNext(j: Journal, after: int, i: int, es: seq<Entry>, all: seq<Entry>)
    requires WellFormed(j) && i in IndicesAfter(j, after) && (forall k :: k in IndicesAfter(j, after) ==> i <= k)
    requires es + CommittedAfter(j, after) == all
    ensures i in j.prepared && IndicesAfter(j, i) == IndicesAfter(j, after) - {i}
    ensures (es + [j.prepared[i]]) + CommittedAfter(j, i) == all
  {
    FirstAndRest(j, after, i);
    hide CommittedAfter, IndicesAfter, WellFormed;
    Regroup(es, CommittedAfter(j, after), all);
  }

  lemma Regroup<T>(front: seq<T>, rest: seq<T>, all: seq<T>)
    requires rest != [] && front + rest == all
    ensures (front + [rest[0]]) + rest[1..] == all
  {
    assert rest == [rest[0]] + rest[1..];
  }

  /** `entries_after`: the committed entries above an index, least first. */
  method EntriesAfter(j: Journal, index: int) returns (es: seq<Entry>)
    requires WellFormed(j)
    ensures es == CommittedAfter(j, index)
  {
    var last, pending := index, set i | i in j.committed && i > index;
    assert pending == IndicesAfter(j, index);
    es := [];
    hide WellFormed, IndicesAfter, CommittedAfter;
    ghost var all := CommittedAfter(j, index);
    assert es + all == all;
    while pending != {}
      invariant pending == IndicesAfter(j, last) && es + CommittedAfter(j, last) == all
      decreases pending
    {
      LeastExists(pending);
      var i :| i in pending && forall k :: k in pending ==> i <= k;
      TakeNext(j, last, i, es, all);
      es, last, pending := es + [j.prepared[i]], i, pending - {i};
    }
    NothingLeft(j, last);
  }

  /** The loop of `catch_up`: the source's committed entries above the target's applied index are
      fetched, and one by one prepared and then committed on the target under its stamp. It stops at
      the first entry the target refuses, with exactly the entries before it copied. */
  method CatchUpFrom(source: ReplicaShard, target: ReplicaShard) returns (ok: bool, applied: int, ghost copied: nat)
    requires source.Valid() && target.Valid() && source != target && source.journal != target.journal
    modifies target, target.journal
    ensures source.Valid() && target.Valid() && source.Disk() == old(source.Disk())
    ensures ok ==> target.Disk() == Deliveries.CatchUp(target.shardId, old(source.Disk()), old(target.Disk()))
    ensures ok ==> IndicesAfter(source.journal.State(), applied) == {}
    ensures var r := old(target.Disk());
      var es := Restamp(CommittedAfter(old(source.Disk()).journal, r.appliedIndex), target.shardId, r.term, r.placementEpoch);
      && copied <= |es| && target.Disk() == Deliveries.Deliver(r, es[..copied]) && (ok <==> copied == |es|)
      && (!ok ==> !(target.journal.codec.valid(es[copied]) && Accepts(target.shardId, target.dimension, target.Disk(), Op.Prepare(es[copied]))))
  {
    applied := target.appliedIndex;
    assert WellFormed(source.journal.State());
    var entries := EntriesAfter(source.journal.State(), applied);
    LastEntryIsNewest(source.journal.State(), applied);
    ghost var r := target.Disk();
    ghost var es := Restamp(entries, target.shardId, r.term, r.placementEpoch);
    hide ReplicaJournal.Valid, Accepts, WellFormed, IndicesAfter, CommittedAfter, Deliveries.Deliver;
    ok, copied := CopyEntries(target, entries);
    if ok {
      assert es[..copied] == es;
      if entries != [] { applied := entries[|entries| - 1].index; }
    }
  }

  lemma LastEntryIsNewest(j: Journal, after: int)
    requires WellFormed(j)
    ensures var es := CommittedAfter(j, after); IndicesAfter(j, if es == [] then after else es[|es| - 1].index) == {}
  {
    var es := CommittedAfter(j, after);
    forall i | i in j.committed && i > after ensures es != [] && i <= es[|es| - 1].index {
      var k :| 0 <= k < |es| && es[k].index == i;
    }
  }

  method CopyEntries(target: ReplicaShard, entries: seq<Entry>) returns (ok: bool, ghost copied: nat)
    requires target.Valid()
    modifies target, target.journal
    ensures target.Valid()
    ensures var r := old(target.Disk()); var es := Restamp(entries, target.shardId, r.term, r.placementEpoch);
      && copied <= |es| && target.Disk() == Deliveries.Deliver(r, es[..copied]) && (ok <==> copied == |es|)
      && (!ok ==> !(target.journal.codec.valid(es[copied]) && Accepts(target.shardId, target.dimension, target.Disk(), Op.Prepare(es[copied]))))
  {
    ghost var r := target.Disk();
    ghost var es := Restamp(entries, target.shardId, r.term, r.placementEpoch);
    assert es[..0] == [] && Deliveries.Deliver(r, []) == r;
    hide ReplicaJournal.Valid, CommitEntry, Accepts, Deliveries.Deliver;
    for k := 0 to |entries|
      invariant target.Valid() && target.Disk() == Deliveries.Deliver(r, es[..k])
      invariant target.term == r.term && target.placementEpoch == r.placementEpoch
    {
      DeliverOneMore(r, es, k);
      ok := CopyEntry(target, Stamped(entries[k], target.shardId, target.term, target.placementEpoch));
      if !ok { return false, k; }
    }
    return true, |entries|;
  }

  method CopyEntry(target: ReplicaShard, e: Entry) returns (ok: bool)
    requires target.Valid()
    modifies target, target.journal
    ensures target.Valid()
    ensures ok <==> target.journal.codec.valid(e) && Accepts(target.shardId, target.dimension, old(target.Disk()), Op.Prepare(e))
    ensures target.Disk() == if ok then CommitEntry(old(target.Disk()), e) else old(target.Disk())
    ensures target.term == old(target.term) && target.placementEpoch == old(target.placementEpoch)
  {
    ghost var before := target.Disk();
    ok := target.Prepare(e);
    if !ok { return; }
    PrepareThenCommit(before, e);
    ok := target.Commit(e);
  }
}
