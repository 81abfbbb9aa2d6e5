/** Catch-up inside the cluster machine: what the coordinator queues, and that a catch-up whose calls
    are answered does to the target what module Deliveries says. */
module CatchUps {
  import opened Basics
  import opened Protocol
  import opened Replicas
  import opened Cluster
  import opened ClusterSafety
  import opened Paths
  import CollectionHistory
  import Deliveries

  /** The entries are exactly the source's committed ones above an index, ascending, each with the
      request, mutation and checksum that the source holds, under the placement's current stamp. */
  ghost predicate MissingEntries(j: Journal, after: int, p: Placement, epoch: int, es: seq<Entry>) {
    && (forall i :: i in j.committed && i > after ==> exists k :: 0 <= k < |es| && es[k].index == i)
    && (forall k, l :: 0 <= k < l < |es| ==> es[k].index < es[l].index)
    && (forall k :: 0 <= k < |es| ==>
          && es[k].index in j.committed && es[k].index > after && es[k].index in j.prepared
          && es[k].requestId == j.prepared[es[k].index].requestId && es[k].mutation == j.prepared[es[k].index].mutation
          && es[k].checksum == j.prepared[es[k].index].checksum
          && es[k].shardId == p.shardId && es[k].term == p.term && es[k].placementEpoch == epoch)
  }

  lemma RestampedIsMissing(j: Journal, after: int, p: Placement, epoch: int)
    requires WellFormed(j)
    ensures MissingEntries(j, after, p, epoch, Restamp(CommittedAfter(j, after), p.shardId, p.term, epoch))
  {
    var old_, es := CommittedAfter(j, after), Restamp(CommittedAfter(j, after), p.shardId, p.term, epoch);
    forall i | i in j.committed && i > after ensures exists k :: 0 <= k < |es| && es[k].index == i {
      var k :| 0 <= k < |old_| && old_[k].index == i;
      assert es[k].index == i;
    }
  }

  lemma CatchUpQueues(w: World, s: State, x: int, c: Node, d: Node)
    requires x in s.meta.shards && WellFormed(At(s, d, x).journal) && Enabled(w, s, BeginCatchUp(x, c, d))
    ensures var t, p := Next(w, s, BeginCatchUp(x, c, d)), s.meta.shards[x];
      t.pc == Copying(x, c, Restamp(CommittedAfter(At(s, d, x).journal, At(s, c, x).appliedIndex), p.shardId, p.term, p.placementEpoch), false, false)
  {
    hide CommittedAfter;
  }

  lemma TailQueues(w: World, s: State)
    requires s.pc.Installed? && s.pc.shard in s.meta.shards && WellFormed(At(s, s.pc.source, s.pc.shard).journal) && Enabled(w, s, FetchTail)
    ensures var p := s.meta.shards[s.pc.shard];
      Next(w, s, FetchTail).pc == Copying(s.pc.shard, s.pc.node,
        Restamp(CommittedAfter(At(s, s.pc.source, s.pc.shard).journal, s.pc.index), p.shardId, p.term, p.placementEpoch + 1), false, true)
  {
    hide CommittedAfter;
  }

  /** In every reachable state a catch-up that begins queues exactly what the target is missing above
      its applied index. */
  lemma CatchUpQueuesMissing(w: World, run: seq<State>, i: nat, x: int, c: Node, d: Node)
    requires CollisionFree(w) && Run(w, run) && i < |run| && x in run[i].meta.shards && Enabled(w, run[i], BeginCatchUp(x, c, d))
    ensures var pc, p := Next(w, run[i], BeginCatchUp(x, c, d)).pc, run[i].meta.shards[x];
      && pc.Copying? && pc.shard == x && pc.node == c && !pc.prepared && !pc.growing
      && MissingEntries(At(run[i], d, x).journal, At(run[i], c, x).appliedIndex, p, p.placementEpoch, pc.entries)
  {
    hide Run, Next, Enabled, MissingEntries, CommittedAfter, Reopen;
    CollectionHistory.CollectionsFollowTheLog(w, run, i, d, x);
    RestampedIsMissing(At(run[i], d, x).journal, At(run[i], c, x).appliedIndex, run[i].meta.shards[x], run[i].meta.shards[x].placementEpoch);
    CatchUpQueues(w, run[i], x, c, d);
  }

  /** The tail for a node being added is exactly what its source has committed above the snapshot. */
  lemma TailQueuesMissing(w: World, run: seq<State>, i: nat)
    requires CollisionFree(w) && Run(w, run) && i < |run| && Enabled(w, run[i], FetchTail)
    requires run[i].pc.Installed? && run[i].pc.shard in run[i].meta.shards
    ensures var s, pc, p := run[i], Next(w, run[i], FetchTail).pc, run[i].meta.shards[run[i].pc.shard];
      && pc.Copying? && pc.shard == s.pc.shard && pc.node == s.pc.node && !pc.prepared && pc.growing
      && MissingEntries(At(s, s.pc.source, s.pc.shard).journal, s.pc.index, p, p.placementEpoch + 1, pc.entries)
  {
    hide Run, Next, Enabled, MissingEntries, CommittedAfter, Reopen, WellFormed, CollectionHistory.Lists, CollectionHistory.Fold;
    CollectionHistory.CollectionsFollowTheLog(w, run, i, run[i].pc.source, run[i].pc.shard);
    TailIsMissing(w, run[i]);
  }

  lemma TailIsMissing(w: World, s: State)
    requires s.pc.Installed? && s.pc.shard in s.meta.shards && WellFormed(At(s, s.pc.source, s.pc.shard).journal) && Enabled(w, s, FetchTail)
    ensures var pc, p := Next(w, s, FetchTail).pc, s.meta.shards[s.pc.shard];
      && pc.Copying? && pc.shard == s.pc.shard && pc.node == s.pc.node && !pc.prepared && pc.growing
      && MissingEntries(At(s, s.pc.source, s.pc.shard).journal, s.pc.index, p, p.placementEpoch + 1, pc.entries)
  {
    hide Next, Enabled, MissingEntries, CommittedAfter, WellFormed;
    var p := s.meta.shards[s.pc.shard];
    RestampedIsMissing(At(s, s.pc.source, s.pc.shard).journal, s.pc.index, p, p.placementEpoch + 1);
    TailQueues(w, s);
  }

  // ---------------------------------------------------------------- a catch-up in full

  /** The target takes every queued entry, whatever of the others it has already taken. */
  ghost predicate TakesAll(x: int, dimension: int, r: Replica, es: seq<Entry>) {
    && (forall k :: 0 <= k < |es| ==> Accepts(x, dimension, r, Prepare(es[k])))
    && (forall k, l :: 0 <= k < l < |es| ==> es[k].index < es[l].index)
  }

  lemma StillTakesAll(x: int, dimension: int, r: Replica, es: seq<Entry>)
    requires es != [] && TakesAll(x, dimension, r, es)
    ensures TakesAll(x, dimension, CommitEntry(r, es[0]), es[1..])
  {
    hide ValidMutation;
    var d := CommitEntry(r, es[0]);
    forall k | 0 <= k < |es[1..]| ensures Accepts(x, dimension, d, Prepare(es[1..][k])) {
      assert Accepts(x, dimension, r, Prepare(es[0])) && Accepts(x, dimension, r, Prepare(es[k + 1]));
      assert es[0].index < es[k + 1].index;
    }
  }

  ghost function Copied(s: State, x: int, c: Node, r: Replica, es: seq<Entry>, prepared: bool, growing: bool): State {
    s.(disks := s.disks[(c, x) := r], pc := Copying(x, c, es, prepared, growing))
  }

  lemma CopyCall(w: World, s: State, x: int, c: Node, r: Replica, es: seq<Entry>, prepared: bool, growing: bool) returns (path: seq<State>)
    requires es != [] && s == Copied(s, x, c, r, es, prepared, growing) && (c, x) in s.open && (c, x) in s.disks
    requires Accepts(x, s.meta.dimension, r, if prepared then Commit(es[0]) else Prepare(es[0]))
    ensures var op := if prepared then Commit(es[0]) else Prepare(es[0]);
      Reaches(w, path, s, Copied(s, x, c, Done(x, s.meta.dimension, r, op), if prepared then es[1..] else es, !prepared, growing))
  {
    var op := if prepared then Commit(es[0]) else Prepare(es[0]);
    assert s.disks[(c, x)] == r;
    AnsweredCall(s, c, x, op);
    assert OnNodes(s.disks, {c}, x, s.meta.dimension, op) == s.disks[(c, x) := Done(x, s.meta.dimension, r, op)];
    hide Reaches, AfterRpc, Answers, OnNodes, Done, Accepts;
    path := OneStep(w, s, CopyRpc(Answered));
  }

  lemma PrepareThenCommitDone(x: int, dimension: int, r: Replica, e: Entry)
    requires Accepts(x, dimension, r, Prepare(e))
    ensures var half := Done(x, dimension, r, Prepare(e));
      Accepts(x, dimension, half, Commit(e)) && Done(x, dimension, half, Commit(e)) == CommitEntry(r, e)
  {
    PrepareThenCommit(r, e);
  }

  /** One entry is prepared and then committed on the target. */
  lemma CopyOne(w: World, s: State, x: int, c: Node, r: Replica, es: seq<Entry>, growing: bool) returns (path: seq<State>)
    requires es != [] && s == Copied(s, x, c, r, es, false, growing) && (c, x) in s.open && (c, x) in s.disks
    requires Accepts(x, s.meta.dimension, r, Prepare(es[0]))
    ensures Reaches(w, path, s, Copied(s, x, c, CommitEntry(r, es[0]), es[1..], false, growing))
  {
    PrepareThenCommitDone(x, s.meta.dimension, r, es[0]);
    hide Reaches, Done, CommitEntry, Accepts;
    var half := Done(x, s.meta.dimension, r, Prepare(es[0]));
    var s1 := Copied(s, x, c, half, es, true, growing);
    var s2 := Copied(s, x, c, CommitEntry(r, es[0]), es[1..], false, growing);
    var a := CopyCall(w, s, x, c, r, es, false, growing);
    var b := CopyCall(w, s1, x, c, half, es, true, growing);
    assert Copied(s1, x, c, CommitEntry(r, es[0]), es[1..], false, growing) == s2;
    path := Join(w, a, b, s, s1, s2);
  }

  lemma CopiedAgain(s: State, x: int, c: Node, r: Replica, es: seq<Entry>, d: Replica, fs: seq<Entry>, growing: bool)
    ensures var t := Copied(s, x, c, r, es, false, growing);
      && Copied(t, x, c, d, fs, false, growing) == Copied(s, x, c, d, fs, false, growing)
      && t.open == s.open && t.meta == s.meta && (c, x) in t.disks
  {
  }

  lemma {:induction false} CopyRound(w: World, s: State, x: int, c: Node, r: Replica, es: seq<Entry>, growing: bool) returns (path: seq<State>)
    requires s == Copied(s, x, c, r, es, false, growing) && (c, x) in s.open && (c, x) in s.disks
    requires TakesAll(x, s.meta.dimension, r, es)
    ensures Reaches(w, path, s, Copied(s, x, c, Deliveries.Deliver(r, es), [], false, growing))
    decreases |es|
  {
    if es == [] {
      Stay(w, s);
      path := [s];
    } else {
      var d := CommitEntry(r, es[0]);
      var t := Copied(s, x, c, d, es[1..], false, growing);
      assert Accepts(x, s.meta.dimension, r, Prepare(es[0]));
      StillTakesAll(x, s.meta.dimension, r, es);
      var end := Deliveries.Deliver(r, es);
      assert end == Deliveries.Deliver(d, es[1..]);
      CopiedAgain(s, x, c, d, es[1..], d, es[1..], growing);
      CopiedAgain(s, x, c, d, es[1..], end, [], growing);
      hide Reaches, TakesAll, Accepts, CommitEntry, Copied, Deliveries.Deliver;
      var a := CopyOne(w, s, x, c, r, es, growing);
      var b := CopyRound(w, t, x, c, d, es[1..], growing);
      path := Join(w, a, b, s, t, Copied(s, x, c, end, [], false, growing));
    }
  }

  /** A catch-up whose calls are all answered and taken leaves the cluster as it was, but for the
      target, which is exactly the specified catch-up of the two replicas. */
  lemma CatchUpInFull(w: World, s: State, x: int, p: Placement, c: Node, d: Node) returns (path: seq<State>)
    requires Enabled(w, s, BeginCatchUp(x, c, d)) && s.meta.shards[x] == p && p.shardId == x
    requires (c, x) in s.disks && Current(s, c, x, p) && WellFormed(At(s, d, x).journal)
    requires TakesAll(x, s.meta.dimension, At(s, c, x), Restamp(CommittedAfter(At(s, d, x).journal, At(s, c, x).appliedIndex), x, p.term, p.placementEpoch))
    ensures Reaches(w, path, s, s.(disks := s.disks[(c, x) := Deliveries.CatchUp(x, At(s, d, x), At(s, c, x))]))
  {
    var r := At(s, c, x);
    var es := Restamp(CommittedAfter(At(s, d, x).journal, r.appliedIndex), x, p.term, p.placementEpoch);
    var s1 := Copied(s, x, c, r, es, false, false);
    assert s.disks[(c, x) := r] == s.disks;
    CatchUpQueues(w, s, x, c, d);
    BeginOnly(w, s, x, c, d);
    var goal := Deliveries.CatchUp(x, At(s, d, x), r);
    assert goal == Deliveries.Deliver(r, es);
    hide Reaches, TakesAll, CommittedAfter, Next, Enabled, Deliveries.Deliver, Deliveries.CatchUp;
    var a := OneStep(w, s, BeginCatchUp(x, c, d));
    var b := CopyRound(w, s1, x, c, r, es, false);
    var t := Copied(s, x, c, goal, [], false, false);
    assert Copied(s1, x, c, goal, [], false, false) == t;
    var ab := Join(w, a, b, s, s1, t);
    EndsCopy(w, t, x, c);
    var e := OneStep(w, t, EndCopy);
    assert t.(pc := Idle) == s.(disks := s.disks[(c, x) := goal]);
    path := Join(w, ab, e, s, t, t.(pc := Idle));
  }

  lemma BeginOnly(w: World, s: State, x: int, c: Node, d: Node)
    requires Enabled(w, s, BeginCatchUp(x, c, d))
    ensures var t := Next(w, s, BeginCatchUp(x, c, d)); t == s.(pc := t.pc) && s.pc == Idle && x in s.meta.shards
  {
  }

  lemma EndsCopy(w: World, t: State, x: int, c: Node)
    requires t.pc == Copying(x, c, [], false, false) && x in t.meta.shards
    ensures Enabled(w, t, EndCopy) && Next(w, t, EndCopy) == t.(pc := Idle)
  {
  }
}
