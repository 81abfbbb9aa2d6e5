/** What a replica's collection holds after any sequence of commits, and what catching up from
    another replica adds to it. */
module Deliveries {
  import opened Basics
  import opened Protocol
  import opened Replicas

  /** One agreed history of log indices, as module ClusterSafety proves all journals share. */
  type Log = map<int, Mutation>

  ghost predicate Agrees(log: Log, crc: Mutation -> int, e: Entry) {
    e.index in log && log[e.index] == e.mutation && e.checksum == crc(e.mutation)
  }

  ghost predicate JournalAgrees(log: Log, crc: Mutation -> int, j: Journal) {
    WellFormed(j) && forall i :: i in j.prepared ==> Agrees(log, crc, j.prepared[i])
  }

  ghost predicate AllAgree(log: Log, crc: Mutation -> int, es: seq<Entry>) {
    forall k :: 0 <= k < |es| ==> Agrees(log, crc, es[k])
  }

  ghost function Deliver(r: Replica, es: seq<Entry>): Replica
    decreases |es|
  {
    if es == [] then r else Deliver(CommitEntry(r, es[0]), es[1..])
  }

  ghost function Indices(es: seq<Entry>): (s: set<int>) {
    set k | 0 <= k < |es| :: es[k].index
  }

  ghost predicate AscendingAbove(a: int, es: seq<Entry>) {
    && (forall k :: 0 <= k < |es| ==> es[k].index > a)
    && (forall i, k :: 0 <= i < k < |es| ==> es[i].index < es[k].index)
  }

  /** The deliveries that raise the applied index. */
  ghost function RunningMaxima(a: int, es: seq<Entry>): (r: seq<Entry>)
    ensures |r| <= |es|
    decreases |es|
  {
    if es == [] then []
    else if es[0].index > a then [es[0]] + RunningMaxima(es[0].index, es[1..])
    else RunningMaxima(a, es[1..])
  }

  lemma CommitOne(log: Log, crc: Mutation -> int, r: Replica, e: Entry)
    requires JournalAgrees(log, crc, r.journal) && Agrees(log, crc, e)
    ensures JournalPrepare(r.journal, e).Ok?
    ensures var d := CommitEntry(r, e);
      && JournalAgrees(log, crc, d.journal) && d.journal.committed == r.journal.committed + {e.index}
      && d.journal.snapshotIndex == r.journal.snapshotIndex
      && d.collection == (if e.index > r.appliedIndex then Apply(r.collection, e.mutation) else r.collection)
      && d.appliedIndex == (if e.index > r.appliedIndex then e.index else r.appliedIndex)
      && d.seed == r.seed && d.own == (if e.index > r.appliedIndex then r.own + [e.index] else r.own)
  {
    if e.index in r.journal.prepared {
      assert Agrees(log, crc, r.journal.prepared[e.index]);
    }
  }

  /** Whatever the order of delivery, every index is journaled, and the collection holds exactly
      the deliveries that were above everything applied before them, in index order. */
  lemma {:induction false} DeliveryOutcome(log: Log, crc: Mutation -> int, r: Replica, es: seq<Entry>)
    requires JournalAgrees(log, crc, r.journal) && AllAgree(log, crc, es)
    ensures var d := Deliver(r, es);
      && d.journal.committed == r.journal.committed + Indices(es)
      && JournalAgrees(log, crc, d.journal) && d.journal.snapshotIndex == r.journal.snapshotIndex
      && d.collection == FoldApply(r.collection, RunningMaxima(r.appliedIndex, es))
      && AscendingAbove(r.appliedIndex, RunningMaxima(r.appliedIndex, es))
    decreases |es|
  {
    MaximaAscend(r.appliedIndex, es);
    if es == [] {
      assert Indices(es) == {};
    } else {
      CommitOne(log, crc, r, es[0]);
      var d := CommitEntry(r, es[0]);
      assert AllAgree(log, crc, es[1..]);
      hide CommitEntry, JournalAgrees, Agrees, Indices, Apply, AscendingAbove;
      DeliveryOutcome(log, crc, d, es[1..]);
      IndicesSplit(es);
      if es[0].index > r.appliedIndex {
        var m := RunningMaxima(r.appliedIndex, es);
        assert m[0] == es[0] && m[1..] == RunningMaxima(d.appliedIndex, es[1..]);
      }
    }
  }

  lemma {:induction false} MaximaAscend(a: int, es: seq<Entry>)
    ensures AscendingAbove(a, RunningMaxima(a, es))
    decreases |es|
  {
    if es != [] {
      if es[0].index > a {
        MaximaAscend(es[0].index, es[1..]);
        var m := RunningMaxima(a, es);
        assert m[1..] == RunningMaxima(es[0].index, es[1..]);
        AscendingSplit(a, m);
      } else {
        MaximaAscend(a, es[1..]);
      }
    }
  }

  lemma IndicesSplit(es: seq<Entry>)
    requires es != []
    ensures Indices(es) == {es[0].index} + Indices(es[1..])
  {
    forall i | i in Indices(es) ensures i in {es[0].index} + Indices(es[1..]) {
      var k :| 0 <= k < |es| && es[k].index == i;
      if k > 0 { assert es[1..][k - 1].index == i; }
    }
    forall i | i in Indices(es[1..]) ensures i in Indices(es) {
      var k :| 0 <= k < |es[1..]| && es[1..][k].index == i;
      assert es[k + 1].index == i;
    }
    assert es[0].index in Indices(es);
  }

  /** Some delivery of the index among the first `n` was above everything applied or delivered before. */
  ghost predicate InTime(a: int, es: seq<Entry>, index: int, n: nat)
    requires n <= |es|
  {
    index > a && exists k :: 0 <= k < n && es[k].index == index && forall j :: 0 <= j < k ==> es[j].index < index
  }

  /** The indices that raise the applied index, in the order of delivery. */
  ghost function Raising(a: int, es: seq<Entry>): seq<int>
    decreases |es|
  {
    if es == [] then []
    else if es[0].index > a then [es[0].index] + Raising(es[0].index, es[1..])
    else Raising(a, es[1..])
  }

  lemma {:induction false} RaisingIsAppended(log: Log, crc: Mutation -> int, r: Replica, es: seq<Entry>)
    requires JournalAgrees(log, crc, r.journal) && AllAgree(log, crc, es)
    ensures Deliver(r, es).seed == r.seed && Deliver(r, es).own == r.own + Raising(r.appliedIndex, es)
    decreases |es|
  {
    if es != [] {
      CommitOne(log, crc, r, es[0]);
      assert AllAgree(log, crc, es[1..]);
      hide CommitEntry, JournalAgrees, Agrees;
      RaisingIsAppended(log, crc, CommitEntry(r, es[0]), es[1..]);
    }
  }

  /** What the first delivery settles and what it leaves to the rest. */
  lemma InTimeSplit(a: int, es: seq<Entry>, index: int)
    requires es != []
    ensures var b := if es[0].index > a then es[0].index else a;
      InTime(a, es, index, |es|) <==> (index > a && es[0].index == index) || InTime(b, es[1..], index, |es| - 1)
  {
    var rest, b := es[1..], if es[0].index > a then es[0].index else a;
    if InTime(b, rest, index, |rest|) {
      var k :| 0 <= k < |rest| && rest[k].index == index && forall j :: 0 <= j < k ==> rest[j].index < index;
      assert es[k + 1].index == index;
      forall j | 0 <= j < k + 1 ensures es[j].index < index { if j > 0 { assert rest[j - 1] == es[j]; } }
    }
    if InTime(a, es, index, |es|) {
      var k :| 0 <= k < |es| && es[k].index == index && forall j :: 0 <= j < k ==> es[j].index < index;
      if k > 0 {
        assert rest[k - 1].index == index && es[0].index < index;
        forall j | 0 <= j < k - 1 ensures rest[j].index < index { assert rest[j] == es[j + 1]; }
      }
    }
  }

  lemma {:induction false} RaisingIsInTime(a: int, es: seq<Entry>, index: int)
    ensures index in Raising(a, es) <==> InTime(a, es, index, |es|)
    decreases |es|
  {
    if es != [] {
      InTimeSplit(a, es, index);
      hide InTime;
      RaisingIsInTime(if es[0].index > a then es[0].index else a, es[1..], index);
    }
  }

  /** Delivered commits in any order, repetitions included: an index is on the replica's list afterwards
      if and only if it was there before or some delivery of it was above everything applied or
      delivered before it. So all deliveries are applied if and only if that holds of each. */
  lemma DeliveredExactly(log: Log, crc: Mutation -> int, r: Replica, es: seq<Entry>, index: int)
    requires JournalAgrees(log, crc, r.journal) && AllAgree(log, crc, es)
    ensures index in Deliver(r, es).Applied() <==> index in r.Applied() || InTime(r.appliedIndex, es, index, |es|)
    ensures (forall i :: i in Indices(es) ==> i in Deliver(r, es).Applied()) <==>
      (forall i :: i in Indices(es) ==> i in r.Applied() || InTime(r.appliedIndex, es, i, |es|))
  {
    RaisingIsAppended(log, crc, r, es);
    hide Deliver, JournalAgrees, AllAgree, Raising, InTime, Indices;
    forall i ensures i in Deliver(r, es).Applied() <==> i in r.Applied() || InTime(r.appliedIndex, es, i, |es|) {
      RaisingIsInTime(r.appliedIndex, es, i);
    }
  }

  /** The deliveries that raise the applied index are all of them exactly when they ascend above it. */
  lemma {:induction false} EveryDeliveryAppliesIffAscending(a: int, es: seq<Entry>)
    ensures RunningMaxima(a, es) == es <==> AscendingAbove(a, es)
    decreases |es|
  {
    if es != [] {
      var rest := es[1..];
      if es[0].index > a {
        EveryDeliveryAppliesIffAscending(es[0].index, rest);
        assert RunningMaxima(a, es) == es <==> RunningMaxima(es[0].index, rest) == rest by {
          assert es == [es[0]] + rest;
          assert RunningMaxima(a, es)[1..] == RunningMaxima(es[0].index, rest);
        }
        AscendingSplit(a, es);
      } else {
        assert |RunningMaxima(a, es)| < |es|;
      }
    }
  }

  lemma AscendingSplit(a: int, es: seq<Entry>)
    requires es != [] && es[0].index > a
    ensures AscendingAbove(a, es) <==> AscendingAbove(es[0].index, es[1..])
  {
    var rest := es[1..];
    if AscendingAbove(es[0].index, rest) {
      forall k | 0 <= k < |es| ensures es[k].index > a { if k > 0 { assert rest[k - 1] == es[k]; } }
      forall i, k | 0 <= i < k < |es| ensures es[i].index < es[k].index {
        assert rest[k - 1] == es[k];
        if i > 0 { assert rest[i - 1] == es[i]; }
      }
    }
  }

  /** Two replicas that start alike, receive their commits in ascending order and end with equal
      committed sets hold equal collections. */
  lemma SameCommitsSameCollection(log: Log, crc: Mutation -> int, r: Replica, es: seq<Entry>, fs: seq<Entry>)
    requires JournalAgrees(log, crc, r.journal) && AllAgree(log, crc, es) && AllAgree(log, crc, fs)
    requires AscendingAbove(r.appliedIndex, es) && AscendingAbove(r.appliedIndex, fs)
    requires forall i :: i in r.journal.committed ==> i <= r.appliedIndex
    requires Deliver(r, es).journal.committed == Deliver(r, fs).journal.committed
    ensures Deliver(r, es).collection == Deliver(r, fs).collection
  {
    DeliveryOutcome(log, crc, r, es);
    DeliveryOutcome(log, crc, r, fs);
    EveryDeliveryAppliesIffAscending(r.appliedIndex, es);
    EveryDeliveryAppliesIffAscending(r.appliedIndex, fs);
    hide Deliver, JournalAgrees, RunningMaxima, FoldApply;
    forall x ensures x in Indices(es) <==> x in Indices(fs) { IndexMembership(r, es, fs, x); }
    assert Indices(es) == Indices(fs);
    SameIndicesSameOrder(r.appliedIndex, es, fs);
    forall k | 0 <= k < |es| ensures es[k].mutation == fs[k].mutation {
      assert Agrees(log, crc, es[k]) && Agrees(log, crc, fs[k]);
    }
    FoldDependsOnMutations(r.collection, es, fs);
  }

  lemma SameIndicesSameOrder(a: int, es: seq<Entry>, fs: seq<Entry>)
    requires AscendingAbove(a, es) && AscendingAbove(a, fs) && Indices(es) == Indices(fs)
    ensures |es| == |fs| && forall k :: 0 <= k < |es| ==> es[k].index == fs[k].index
  {
    var x, y := IndexSeq(es), IndexSeq(fs);
    forall i ensures i in x <==> i in y { assert i in x <==> i in Indices(es); assert i in y <==> i in Indices(fs); }
    AscendingUnique(x, y);
    forall k | 0 <= k < |es| ensures es[k].index == fs[k].index { assert x[k] == y[k]; }
  }

  ghost function IndexSeq(es: seq<Entry>): (x: seq<int>)
    ensures |x| == |es| && forall k :: 0 <= k < |es| ==> x[k] == es[k].index
    ensures forall i :: i in x <==> i in Indices(es)
  {
    var x := seq(|es|, k requires 0 <= k < |es| => es[k].index);
    assert forall k :: 0 <= k < |es| ==> x[k] == es[k].index;
    assert forall i :: i in Indices(es) ==> exists k :: 0 <= k < |es| && es[k].index == i && x[k] == i;
    x
  }

  lemma IndexMembership(r: Replica, es: seq<Entry>, fs: seq<Entry>, x: int)
    requires AscendingAbove(r.appliedIndex, es) && AscendingAbove(r.appliedIndex, fs)
    requires forall i :: i in r.journal.committed ==> i <= r.appliedIndex
    requires r.journal.committed + Indices(es) == r.journal.committed + Indices(fs)
    ensures x in Indices(es) <==> x in Indices(fs)
  {
    assert x in Indices(es) ==> x > r.appliedIndex;
    assert x in Indices(fs) ==> x > r.appliedIndex;
    assert x in r.journal.committed + Indices(es) <==> x in r.journal.committed + Indices(fs);
  }

  lemma {:induction false} FoldDependsOnMutations(c: Collection, es: seq<Entry>, fs: seq<Entry>)
    requires |es| == |fs| && forall k :: 0 <= k < |es| ==> es[k].mutation == fs[k].mutation
    ensures FoldApply(c, es) == FoldApply(c, fs)
    decreases |es|
  {
    if es != [] {
      FoldDependsOnMutations(Apply(c, es[0].mutation), es[1..], fs[1..]);
    }
  }

  // ---------------------------------------------------------------- catch-up

  /** `catch_up`: every committed entry of the source above the target's applied index, stamped
      with the target's epoch, is prepared and committed in turn. */
  ghost function CatchUp(shard: int, source: Replica, target: Replica): Replica
    requires WellFormed(source.journal)
  {
    Deliver(target, Restamp(CommittedAfter(source.journal, target.appliedIndex), shard, target.term, target.placementEpoch))
  }

  /** Each missing committed entry is applied once and in index order, and nothing else is. */
  lemma CatchUpAppliesTheMissingEntries(log: Log, crc: Mutation -> int, shard: int, source: Replica, target: Replica)
    requires JournalAgrees(log, crc, source.journal) && JournalAgrees(log, crc, target.journal)
    ensures var missing := CommittedAfter(source.journal, target.appliedIndex);
      var t := CatchUp(shard, source, target);
      && t.collection == FoldApply(target.collection, missing)
      && t.journal.committed == target.journal.committed + IndicesAfter(source.journal, target.appliedIndex)
      && t.appliedIndex == (if missing == [] then target.appliedIndex else missing[|missing| - 1].index)
  {
    RestampedAgree(log, crc, shard, source.journal, target);
    MissingIndices(shard, source.journal, target);
    var missing := CommittedAfter(source.journal, target.appliedIndex);
    DeliverAll(log, crc, target, missing, Restamp(missing, shard, target.term, target.placementEpoch));
  }

  /** Entries that ascend above the applied index are all applied, under whatever stamp. */
  lemma DeliverAll(log: Log, crc: Mutation -> int, target: Replica, missing: seq<Entry>, es: seq<Entry>)
    requires JournalAgrees(log, crc, target.journal) && AllAgree(log, crc, es) && AscendingAbove(target.appliedIndex, missing)
    requires |es| == |missing| && forall k :: 0 <= k < |es| ==> es[k].index == missing[k].index && es[k].mutation == missing[k].mutation
    ensures var t := Deliver(target, es);
      && t.collection == FoldApply(target.collection, missing)
      && t.journal.committed == target.journal.committed + Indices(es)
      && t.appliedIndex == (if missing == [] then target.appliedIndex else missing[|missing| - 1].index)
  {
    assert AscendingAbove(target.appliedIndex, es);
    hide AllAgree, JournalAgrees, Deliver, RunningMaxima, FoldApply, Indices;
    DeliveryOutcome(log, crc, target, es);
    EveryDeliveryAppliesIffAscending(target.appliedIndex, es);
    FoldDependsOnMutations(target.collection, es, missing);
    AppliedAfterAscending(log, crc, target, es);
  }

  lemma RestampedAgree(log: Log, crc: Mutation -> int, shard: int, j: Journal, target: Replica)
    requires JournalAgrees(log, crc, j)
    ensures AllAgree(log, crc, Restamp(CommittedAfter(j, target.appliedIndex), shard, target.term, target.placementEpoch))
  {
    var missing := CommittedAfter(j, target.appliedIndex);
    var es := Restamp(missing, shard, target.term, target.placementEpoch);
    forall k | 0 <= k < |es| ensures Agrees(log, crc, es[k]) { assert Agrees(log, crc, j.prepared[missing[k].index]); }
  }

  lemma MissingIndices(shard: int, j: Journal, target: Replica)
    requires WellFormed(j)
    ensures Indices(Restamp(CommittedAfter(j, target.appliedIndex), shard, target.term, target.placementEpoch)) == IndicesAfter(j, target.appliedIndex)
  {
    var missing := CommittedAfter(j, target.appliedIndex);
    var es := Restamp(missing, shard, target.term, target.placementEpoch);
    forall i | i in IndicesAfter(j, target.appliedIndex) ensures i in Indices(es) {
      var k :| 0 <= k < |missing| && missing[k].index == i;
      assert es[k].index == i;
    }
  }

  lemma {:induction false} AppliedAfterAscending(log: Log, crc: Mutation -> int, r: Replica, es: seq<Entry>)
    requires JournalAgrees(log, crc, r.journal) && AllAgree(log, crc, es) && AscendingAbove(r.appliedIndex, es)
    ensures Deliver(r, es).appliedIndex == (if es == [] then r.appliedIndex else es[|es| - 1].index)
    decreases |es|
  {
    if es != [] {
      CommitOne(log, crc, r, es[0]);
      var d := CommitEntry(r, es[0]);
      forall k | 0 <= k < |es[1..]| ensures es[1..][k].index > d.appliedIndex { assert es[1..][k] == es[k + 1]; }
      assert AllAgree(log, crc, es[1..]);
      AppliedAfterAscending(log, crc, d, es[1..]);
    }
  }

  /** From a source at the committed index, catch-up reaches that index exactly when the target
      was already there or the source's journal still holds a committed entry at or above it;
      a source whose snapshot is not newer than the target always does. */
  lemma CatchUpReachesCommitted(log: Log, crc: Mutation -> int, shard: int, source: Replica, target: Replica, committedIndex: int)
    requires JournalAgrees(log, crc, source.journal) && JournalAgrees(log, crc, target.journal)
    requires Quiescent(source) && source.appliedIndex >= committedIndex
    ensures CatchUp(shard, source, target).appliedIndex >= committedIndex <==>
      target.appliedIndex >= committedIndex || exists i :: i in source.journal.committed && i >= committedIndex
    ensures source.journal.snapshotIndex <= target.appliedIndex ==> CatchUp(shard, source, target).appliedIndex >= committedIndex
  {
    assert WellFormed(source.journal);
    hide JournalAgrees, CatchUp, FoldApply, IndicesAfter, CommittedAfter, WellFormed;
    CatchUpAppliesTheMissingEntries(log, crc, shard, source, target);
    NewestMissing(source.journal, target.appliedIndex);
  }

  /** The last missing entry is the newest committed one above the target. */
  lemma NewestMissing(j: Journal, after: int)
    requires WellFormed(j)
    ensures var missing := CommittedAfter(j, after);
      && (missing != [] ==> missing[|missing| - 1].index in j.committed && missing[|missing| - 1].index > after)
      && forall i :: i in j.committed && i > after ==> missing != [] && i <= missing[|missing| - 1].index
  {
    var missing := CommittedAfter(j, after);
    forall i | i in j.committed && i > after ensures missing != [] && i <= missing[|missing| - 1].index {
      var k :| 0 <= k < |missing| && missing[k].index == i;
    }
  }

  /** Catch-up looks only above the target's applied index: an entry that the target skipped below
      it stays missing, however many caught-up sources hold it. */
  lemma CatchUpNeverFillsGaps(log: Log, crc: Mutation -> int, shard: int, source: Replica, target: Replica, gap: int)
    requires JournalAgrees(log, crc, source.journal) && JournalAgrees(log, crc, target.journal)
    requires gap <= target.appliedIndex && gap !in target.journal.committed
    ensures gap !in CatchUp(shard, source, target).journal.committed
    ensures source.appliedIndex <= target.appliedIndex && Quiescent(source) ==> CatchUp(shard, source, target).collection == target.collection
  {
    CatchUpAppliesTheMissingEntries(log, crc, shard, source, target);
    if source.appliedIndex <= target.appliedIndex && Quiescent(source) {
      assert CommittedAfter(source.journal, target.appliedIndex) == [];
    }
  }
}
