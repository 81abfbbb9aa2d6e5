/** Exactly which writes a replica has. Over every run, an index is on a replica's list if and only if
    it came with the installed snapshot or its commit marker was written while it was above the
    replica's applied index; and exactly when that gives a replica, and so an elected leader, every
    acknowledged write. */
module AcknowledgedWrites {
  import opened Basics
  import opened Protocol
  import opened Replicas
  import opened Cluster
  import opened ClusterSafety
  import opened CollectionHistory
  import Quorums

  /** The replica as its recovery finds it; an open replica as it is. */
  ghost function View(s: State, n: Node, shard: int): Replica {
    var r := At(s, n, shard);
    if WellFormed(r.journal) then Reopen(r) else r
  }

  /** The journal of replica `n` holds the commit marker of `index`, and when that marker was written
      the index was above everything the replica had applied. */
  ghost predicate MarkedAbove(run: seq<State>, i: nat, n: Node, shard: int, index: int)
    requires i < |run|
  {
    && i > 0 && index in At(run[i], n, shard).journal.committed
    && if index in At(run[i - 1], n, shard).journal.committed then MarkedAbove(run, i - 1, n, shard, index)
       else index > At(run[i - 1], n, shard).appliedIndex
  }

  // ---------------------------------------------------------------- which indices are applied

  lemma ShardsStay(w: World, run: seq<State>, i: nat, j: nat)
    requires CollisionFree(w) && Run(w, run) && i <= j < |run|
    ensures run[i].meta.shards.Keys == run[j].meta.shards.Keys
  {
    RunLeads(w, run, i, j);
  }

  /** One step of the correspondence. */
  lemma MoveMarks(s: State, t: State, n: Node, shard: int, index: int, before: bool)
    requires ViewStep(s, t, n, shard)
    requires View(s, n, shard).journal == At(s, n, shard).journal && View(t, n, shard).journal == At(t, n, shard).journal
    requires forall i :: i in View(s, n, shard).own ==> i in At(s, n, shard).journal.committed
    requires forall i :: i in At(s, n, shard).journal.committed ==> i <= View(s, n, shard).appliedIndex
    requires index in View(s, n, shard).own <==> before
    ensures index in View(t, n, shard).own <==> (
      && index in At(t, n, shard).journal.committed
      && if index in At(s, n, shard).journal.committed then before else index > At(s, n, shard).appliedIndex)
  {
    hide Reopen, WellFormed;
  }

  /** Every marker written above the applied index is applied, and nothing else is but what came
      with the snapshot. */
  lemma {:induction false} AppliedExactly(w: World, run: seq<State>, i: nat, n: Node, shard: int, index: int)
    requires CollisionFree(w) && Run(w, run) && i < |run| && shard in run[i].meta.shards
    ensures index in View(run[i], n, shard).own <==> MarkedAbove(run, i, n, shard, index)
    ensures index in View(run[i], n, shard).Applied() <==>
      index in View(run[i], n, shard).seed || MarkedAbove(run, i, n, shard, index)
  {
    CollectionsFollowTheLog(w, run, i, n, shard);
    if i == 0 {
      FreshView(w, run, n, shard);
    } else {
      ShardsStay(w, run, i - 1, i);
      CollectionsFollowTheLog(w, run, i - 1, n, shard);
      RunViews(w, run, i - 1, n, shard);
      hide Run, ViewStep, Lists, Fold, Reopen;
      AppliedExactly(w, run, i - 1, n, shard, index);
      MoveMarks(run[i - 1], run[i], n, shard, index, MarkedAbove(run, i - 1, n, shard, index));
    }
  }

  lemma FreshView(w: World, run: seq<State>, n: Node, shard: int)
    requires Run(w, run)
    ensures View(run[0], n, shard) == Fresh
  {
    assert At(run[0], n, shard) == Fresh;
    assert Quiescent(Fresh);
    ReopenQuiescent(Fresh);
  }

  // ---------------------------------------------------------------- commits that come late

  /** No marker in the replica's journal was written at or below the applied index. */
  ghost predicate NoneLate(run: seq<State>, i: nat, n: Node, shard: int)
    requires i < |run|
  {
    forall index :: index in At(run[i], n, shard).journal.committed ==> MarkedAbove(run, i, n, shard, index)
  }

  /** A replica, seeded by a snapshot or not, has applied exactly the entries its journal committed if
      and only if none of them came late; its collection is then its snapshot's list followed by its
      committed entries in index order. */
  lemma OrderlyCollection(w: World, run: seq<State>, i: nat, n: Node, shard: int)
    requires CollisionFree(w) && Run(w, run) && i < |run| && shard in run[i].meta.shards
    ensures var r := View(run[i], n, shard);
      && (r.own == SortedSeq(r.journal.committed) <==> NoneLate(run, i, n, shard))
      && (NoneLate(run, i, n, shard) ==> r.collection == Fold(run[i].issued, shard, r.seed + SortedSeq(r.journal.committed)))
  {
    CollectionsFollowTheLog(w, run, i, n, shard);
    var r := View(run[i], n, shard);
    forall index ensures index in r.own <==> MarkedAbove(run, i, n, shard, index) { AppliedExactly(w, run, i, n, shard, index); }
    var sorted := SortedSeq(r.journal.committed);
    OwnAscends(r);
    hide Run, Fold, MarkedAbove;
    if NoneLate(run, i, n, shard) {
      forall index ensures index in r.own <==> index in sorted {}
      AscendingUnique(r.own, sorted);
    }
    if r.own == sorted {
      forall index | index in r.journal.committed ensures MarkedAbove(run, i, n, shard, index) { assert index in sorted; }
    }
  }

  lemma OwnAscends(r: Replica)
    requires Ascending(r.Applied())
    ensures Ascending(r.own)
  {
    forall i, j | 0 <= i < j < |r.own| ensures r.own[i] < r.own[j] {
      assert r.Applied()[|r.seed| + i] == r.own[i] && r.Applied()[|r.seed| + j] == r.own[j];
    }
  }

  /** Two such replicas that together with their snapshots account for the same indices hold equal
      collections, at any two moments. */
  lemma OrderlyReplicasAgree(w: World, run: seq<State>, i: nat, j: nat, a: Node, b: Node, shard: int)
    requires CollisionFree(w) && Run(w, run) && i <= j < |run| && shard in run[i].meta.shards && shard in run[j].meta.shards
    requires NoneLate(run, i, a, shard) && NoneLate(run, j, b, shard)
    requires Elems(View(run[i], a, shard).seed) + View(run[i], a, shard).journal.committed
          == Elems(View(run[j], b, shard).seed) + View(run[j], b, shard).journal.committed
    ensures View(run[i], a, shard).collection == View(run[j], b, shard).collection
  {
    var r, d := View(run[i], a, shard), View(run[j], b, shard);
    CollectionsFollowTheLog(w, run, i, a, shard);
    CollectionsFollowTheLog(w, run, j, b, shard);
    OrderlyCollection(w, run, i, a, shard);
    OrderlyCollection(w, run, j, b, shard);
    RunLeads(w, run, i, j);
    hide Run, Fold, NoneLate, Leads;
    forall x ensures x in r.Applied() <==> x in d.Applied() {
      OnTheList(r, x);
      OnTheList(d, x);
    }
    AscendingUnique(r.Applied(), d.Applied());
    assert HistoryLeads(run[i], run[j]) by { LeadsParts(run[i], run[j]); }
    SameListSameFold(run[i], run[j], shard, r.Applied(), r.appliedIndex);
  }

  lemma OnTheList(r: Replica, x: int)
    requires r.own == SortedSeq(r.journal.committed)
    ensures x in r.Applied() <==> x in Elems(r.seed) + r.journal.committed
  {
  }

  lemma SameListSameFold(s: State, t: State, shard: int, indices: seq<int>, last: int)
    requires HistoryLeads(s, t) && Lists(s, shard, indices, last)
    ensures Fold(s.issued, shard, indices) == Fold(t.issued, shard, indices)
  {
    assert forall k :: 0 <= k < |indices| ==> Bound(s, shard, indices[k]);
    FoldFrame(s.issued, t.issued, shard, indices);
  }

  // ---------------------------------------------------------------- acknowledged writes

  ghost predicate Acked(s: State, shard: int, index: int) {
    exists ack :: ack in s.acks && ack.shardId == shard && ack.index == index
  }

  /** The replica has every acknowledged write up to its applied index. */
  ghost predicate Covers(s: State, n: Node, shard: int) {
    forall index :: Acked(s, shard, index) && index <= View(s, n, shard).appliedIndex ==> index in View(s, n, shard).Applied()
  }

  /** What each kind of step has to respect. Committing an index above the applied one: every
      acknowledged index below it is already on the replica's list. Acknowledging: an index that the
      replica has passed is on its list. Installing a snapshot: every acknowledged index up to the
      snapshot's is on the snapshot's list. */
  ghost predicate CleanStep(s: State, t: State, n: Node, shard: int) {
    var r, d := View(s, n, shard), View(t, n, shard);
    && (forall k :: Appends(r, d, k) ==> forall index :: Acked(t, shard, index) && index < k ==> index in r.Applied())
    && (Keeps(r, d) ==> forall index :: Acked(t, shard, index) && !Acked(s, shard, index) && index <= r.appliedIndex ==> index in r.Applied())
    && (s.pc.Exported? && s.pc.node == n && s.pc.shard == shard && Seeds(d, s.pc.index, s.pc.applied) ==>
          forall index :: Acked(t, shard, index) && index <= s.pc.index ==> index in s.pc.applied)
  }

  ghost predicate CleanAt(run: seq<State>, j: nat, n: Node, shard: int) {
    j + 1 < |run| && CleanStep(run[j], run[j + 1], n, shard)
  }

  /** The steps up to moment `i` were clean for the replica. */
  ghost predicate CleanUntil(run: seq<State>, i: nat, n: Node, shard: int) {
    forall j :: 0 <= j < i ==> CleanAt(run, j, n, shard)
  }

  lemma StepCovers(s: State, t: State, n: Node, shard: int)
    requires ViewStep(s, t, n, shard)
    ensures Covers(s, n, shard) && CleanStep(s, t, n, shard) ==> Covers(t, n, shard)
    ensures Covers(t, n, shard) ==> CleanStep(s, t, n, shard)
  {
    hide Reopen, WellFormed, Acked;
    var r, d := View(s, n, shard), View(t, n, shard);
    assert forall k :: Appends(r, d, k) ==> d.Applied() == r.Applied() + [k];
    assert Keeps(r, d) ==> d.Applied() == r.Applied();
    assert forall k :: Seeds(d, k, d.seed) ==> d.Applied() == d.seed;
  }

  lemma NothingAckedYet(w: World, run: seq<State>, n: Node, shard: int)
    requires Run(w, run)
    ensures Covers(run[0], n, shard)
  {
  }

  /** A replica never lacks an acknowledged write that it has passed if and only if every step was
      clean for it. */
  lemma {:induction false} AlwaysCoversExactly(w: World, run: seq<State>, i: nat, n: Node, shard: int)
    requires CollisionFree(w) && Run(w, run) && i < |run| && shard in run[i].meta.shards
    ensures (forall j :: 0 <= j <= i ==> Covers(run[j], n, shard)) <==> CleanUntil(run, i, n, shard)
  {
    hide Covers, CleanStep, ViewStep;
    if i == 0 {
      NothingAckedYet(w, run, n, shard);
    } else {
      ShardsStay(w, run, i - 1, i);
      RunViews(w, run, i - 1, n, shard);
      hide Run;
      AlwaysCoversExactly(w, run, i - 1, n, shard);
      StepCovers(run[i - 1], run[i], n, shard);
      assert CleanAt(run, i - 1, n, shard) <==> CleanStep(run[i - 1], run[i], n, shard);
    }
  }

  lemma AckedIsCommitted(w: World, run: seq<State>, i: nat, shard: int, index: int)
    requires CollisionFree(w) && Run(w, run) && i < |run| && shard in run[i].meta.shards && Acked(run[i], shard, index)
    ensures index <= run[i].meta.shards[shard].committedIndex
  {
    var ack :| ack in run[i].acks && ack.shardId == shard && ack.index == index;
    var j := Quorums.AcknowledgementNeedsQuorum(w, run, i, ack);
    RunLeads(w, run, j, i);
  }

  ghost predicate HasAcknowledged(s: State, n: Node, shard: int) {
    forall index :: Acked(s, shard, index) ==> index in View(s, n, shard).Applied()
  }

  /** Each acknowledged index came with the replica's snapshot or was marked while above its applied
      index. */
  ghost predicate AckedInTime(run: seq<State>, i: nat, n: Node, shard: int)
    requires i < |run|
  {
    forall index :: Acked(run[i], shard, index) ==> index in View(run[i], n, shard).seed || MarkedAbove(run, i, n, shard, index)
  }

  /** A caught-up replica has all acknowledged writes if and only if each of them came with its
      snapshot or was marked while above its applied index; clean steps are enough. */
  lemma CaughtUpHasAcknowledgedExactly(w: World, run: seq<State>, i: nat, n: Node, shard: int)
    requires CollisionFree(w) && Run(w, run) && i < |run| && shard in run[i].meta.shards
    requires At(run[i], n, shard).appliedIndex >= run[i].meta.shards[shard].committedIndex
    ensures HasAcknowledged(run[i], n, shard) <==> AckedInTime(run, i, n, shard)
    ensures CleanUntil(run, i, n, shard) ==> HasAcknowledged(run[i], n, shard)
  {
    CollectionsFollowTheLog(w, run, i, n, shard);
    var r := At(run[i], n, shard);
    ReplayFrame(r, CommittedAfter(r.journal, r.appliedIndex), Reopen(r));
    hide Run, MarkedAbove, Acked, Fold, Lists;
    forall index ensures index in View(run[i], n, shard).Applied() <==>
        index in View(run[i], n, shard).seed || MarkedAbove(run, i, n, shard, index)
    {
      AppliedExactly(w, run, i, n, shard, index);
    }
    AlwaysCoversExactly(w, run, i, n, shard);
    hide CleanAt;
    if CleanUntil(run, i, n, shard) {
      assert Covers(run[i], n, shard);
      forall index | Acked(run[i], shard, index) ensures index in View(run[i], n, shard).Applied() {
        AckedIsCommitted(w, run, i, shard, index);
      }
    }
  }

  /** The same for the leader that an election names. */
  lemma ElectedLeaderHasAcknowledgedExactly(w: World, run: seq<State>, i: nat, shard: int)
    requires CollisionFree(w) && Run(w, run) && i + 1 < |run| && shard in run[i].meta.shards && shard in run[i + 1].meta.shards
    requires run[i + 1].meta.shards[shard].term != run[i].meta.shards[shard].term
    ensures var n := run[i + 1].meta.shards[shard].leader;
      && (HasAcknowledged(run[i + 1], n, shard) <==> AckedInTime(run, i + 1, n, shard))
      && (CleanUntil(run, i + 1, n, shard) ==> HasAcknowledged(run[i + 1], n, shard))
  {
    hide HasAcknowledged, AckedInTime, CleanUntil;
    NewLeaderIsCaughtUp(w, run, i, shard);
    CaughtUpHasAcknowledgedExactly(w, run, i + 1, run[i + 1].meta.shards[shard].leader, shard);
  }
}
