/** Whole cluster runs in which a commit that one replica misses is never made up for: an election
    names that replica, or catch-up leaves it behind, and no commit ever comes late. */
module SkippedCommits {
  import opened Basics
  import opened Protocol
  import opened Replicas
  import opened Cluster
  import opened ClusterReconfiguration
  import opened Paths
  import opened CollectionHistory
  import opened AcknowledgedWrites

  // ---------------------------------------------------------------- an election in full

  ghost function AllAt(nodes: seq<Node>, index: int): map<Node, int> {
    map n | n in nodes :: index
  }

  /** Every replica that is left answers the probe, all with the same applied index. */
  lemma {:induction false} ProbeRound(w: World, s: State, x: int, todo: seq<Node>, found: map<Node, int>, index: int) returns (path: seq<State>)
    requires s.pc == Electing(x, todo, found)
    requires forall n :: n in todo ==> (n, x) in s.open && At(s, n, x).appliedIndex == index
    ensures Reaches(w, path, s, s.(pc := Electing(x, [], found + AllAt(todo, index))))
    decreases |todo|
  {
    if todo == [] {
      assert found + AllAt(todo, index) == found;
      Stay(w, s);
      path := [s];
    } else {
      var n, rest := todo[0], todo[1..];
      assert todo == [n] + rest;
      var t := s.(pc := Electing(x, rest, found[n := index]));
      assert Next(w, s, StatusRpc(true)) == t;
      var first := OneStep(w, s, StatusRpc(true));
      forall m | m in rest ensures At(t, m, x) == At(s, m, x) && m in todo {}
      ProbedAdds(found, n, rest, todo, index);
      hide Reaches, AllAt;
      var tail := ProbeRound(w, t, x, rest, found[n := index], index);
      path := Join(w, first, tail, s, t, s.(pc := Electing(x, [], found + AllAt(todo, index))));
    }
  }

  lemma ProbedAdds(found: map<Node, int>, n: Node, rest: seq<Node>, todo: seq<Node>, index: int)
    requires todo == [n] + rest
    ensures found[n := index] + AllAt(rest, index) == found + AllAt(todo, index)
  {
    var l, r := found[n := index] + AllAt(rest, index), found + AllAt(todo, index);
    assert l.Keys == r.Keys;
    assert forall m :: m in l ==> l[m] == r[m];
  }

  lemma EndOfElection(w: World, s: State, x: int, p: Placement, index: int, c: Node) returns (path: seq<State>)
    requires s.pc == Electing(x, [], AllAt(p.replicas, index)) && x in s.meta.shards && s.meta.shards[x] == p && p.shardId == x
    requires NoDup(p.replicas) && p.replicas != [] && Best(p.replicas, AllAt(p.replicas, index)) == Some(c)
    ensures Reaches(w, path, s,
      s.(meta := Publish(s.meta, p.(term := p.term + 1, placementEpoch := p.placementEpoch + 1, leader := c)), pc := Idle))
  {
    var found := AllAt(p.replicas, index);
    assert found.Keys == Elems(p.replicas);
    DistinctCardinality(p.replicas);
    assert |found| == |found.Keys|;
    hide Reaches, Best, AllAt;
    path := OneStep(w, s, EndElection);
  }

  /** An election that every replica answers, all at the same applied index. */
  lemma Elect(w: World, s: State, x: int, p: Placement, index: int, c: Node) returns (path: seq<State>, t: State)
    requires Ready(s, x, p) && Best(p.replicas, AllAt(p.replicas, index)) == Some(c)
    requires forall n :: n in p.replicas ==> At(s, n, x).appliedIndex == index
    ensures Reaches(w, path, s, t) && t.pc == Idle && t.disks == s.disks && t.open == s.open && t.acks == s.acks
    ensures x in t.meta.shards && t.meta.shards[x] == p.(term := p.term + 1, placementEpoch := p.placementEpoch + 1, leader := c)
  {
    var s1 := s.(pc := Electing(x, p.replicas, map[]));
    forall n | n in p.replicas ensures (n, x) in s.open && At(s1, n, x) == At(s, n, x) { assert Current(s, n, x, p); }
    hide Reaches, Best, Current, AllAt;
    var a := OneStep(w, s, BeginElection(x));
    hide Next, Enabled;
    var b := ProbeRound(w, s1, x, p.replicas, map[], index);
    assert map[] + AllAt(p.replicas, index) == AllAt(p.replicas, index);
    var s2 := s.(pc := Electing(x, [], AllAt(p.replicas, index)));
    var ab := Join(w, a, b, s, s1, s2);
    var d := EndOfElection(w, s2, x, p, index, c);
    t := s2.(meta := Publish(s2.meta, p.(term := p.term + 1, placementEpoch := p.placementEpoch + 1, leader := c)), pc := Idle);
    path := Join(w, ab, d, s, s2, t);
  }

  // ---------------------------------------------------------------- the two kinds of replica

  lemma SkippingReplica(e: Entry, f: Entry)
    requires e.index == 1 && f.index == 2
    ensures var r := CommitEntry(With(With(Opened, e), f), f);
      && r.appliedIndex == 2 && r.seed == [] && r.own == [2] && r.journal.committed == {2} && r.journal.snapshotIndex == 0
      && r.collection == Apply(map[], f.mutation)
  {
    var r0 := With(With(Opened, e), f);
    assert JournalPrepare(r0.journal, f) == Ok(r0.journal);
  }

  lemma CompleteReplica(e: Entry, f: Entry)
    requires e.index == 1 && f.index == 2
    ensures var r := CommitEntry(With(CommitEntry(With(Opened, e), e), f), f);
      && r.appliedIndex == 2 && r.seed == [] && r.own == [1, 2] && r.journal.committed == {1, 2}
    ensures var r := CommitEntry(With(Opened, e), e);
      && r.term == 1 && r.placementEpoch == 1 && r.journal.prepared == map[1 := e] && r.journal.snapshotIndex == 0
      && r.appliedIndex == 1 && r.seed == [] && r.own == [1] && r.journal.committed == {1} && r.collection == Apply(map[], e.mutation)
  {
    var r0 := With(Opened, e);
    assert JournalPrepare(r0.journal, e) == Ok(r0.journal);
    var r1 := With(CommitEntry(r0, e), f);
    assert JournalPrepare(r1.journal, f) == Ok(r1.journal);
    assert {1} + {2} == {1, 2};
  }

  // ---------------------------------------------------------------- the elected leader lacks a write

  /** The replica an election will prefer when all have applied the same. */
  lemma Preferred(replicas: seq<Node>, index: int) returns (c: Node)
    requires replicas != []
    ensures c in replicas && Best(replicas, AllAt(replicas, index)) == Some(c)
  {
    BestIsFirst(replicas, AllAt(replicas, index));
    c := Best(replicas, AllAt(replicas, index)).value;
  }

  lemma AllButOne(replicas: seq<Node>, c: Node)
    requires NoDup(replicas) && c in replicas && |replicas| >= 3
    ensures Elems(replicas) - {c} <= Elems(replicas) && |Elems(replicas) - {c}| >= |replicas| / 2 + 1
    ensures |Elems(replicas)| >= |replicas| / 2 + 1
  {
    DistinctCardinality(replicas);
    assert c in Elems(replicas);
    assert |Elems(replicas) - {c}| == |Elems(replicas)| - 1;
  }

  ghost predicate LeaderLacksFirst(t: State, x: int, c: Node, b: Mutation) {
    && t.pc == Idle && x in t.meta.shards && t.meta.shards[x].leader == c && c in t.meta.shards[x].replicas && t.meta.shards[x].term == 2
    && {Ack("a", x, 1, 1), Ack("b", x, 1, 2)} <= t.acks
    && t.meta.shards[x].committedIndex == 2 && At(t, c, x).appliedIndex == 2
    && JustApplied(t, c, x, [2]) && At(t, c, x).collection == Apply(map[], b)
    && (forall n :: n in t.meta.shards[x].replicas && n != c ==> JustApplied(t, n, x, [1, 2]))
  }

  /** An open replica, not seeded by a snapshot, that committed and applied exactly these indices. */
  ghost predicate JustApplied(t: State, n: Node, x: int, indices: seq<int>) {
    && (n, x) in t.open && At(t, n, x).seed == [] && At(t, n, x).own == indices
    && forall i :: i in At(t, n, x).journal.committed <==> i in indices
  }

  ghost predicate FreshShard(s: State, x: int, p: Placement) {
    && Ready(s, x, p) && p.term == 1 && p.placementEpoch == 1 && p.lastLogIndex == 0 && p.committedIndex == 0
    && s.meta.requestTable == map[] && forall n :: n in p.replicas ==> (n, x) in s.disks && s.disks[(n, x)] == Opened
  }

  /** Every replica but `c` has committed the first entry; `c` has only prepared it. */
  ghost predicate AfterFirst(s: State, t: State, x: int, p: Placement, c: Node, e: Entry) {
    && Ready(t, x, p.(lastLogIndex := 1, committedIndex := 1)) && HasRoom(t, x, p.(lastLogIndex := 1, committedIndex := 1))
    && t.meta.requestTable.Keys == {"a"} && t.acks == s.acks + {Ack("a", x, 1, 1)} && t.meta.members == s.meta.members
    && t.meta.shardCount == s.meta.shardCount && t.meta.dimension == s.meta.dimension && t.disks.Keys == s.disks.Keys && t.open == s.open
    && forall n :: n in p.replicas ==>
         (n, x) in t.disks && t.disks[(n, x)] == if n == c then With(Opened, e) else CommitEntry(With(Opened, e), e)
  }

  lemma FirstWrite(w: World, s: State, x: int, p: Placement, c: Node, a: Mutation) returns (path: seq<State>, t: State)
    requires FreshShard(s, x, p) && Writable(w, s, x, a) && |p.replicas| >= 3 && c in p.replicas
    ensures Reaches(w, path, s, t) && AfterFirst(s, t, x, p, c, EntryFor(w, p, "a", a))
  {
    AllButOne(p.replicas, c);
    var e := EntryFor(w, p, "a", a);
    CompleteReplica(e, e.(index := 2));
    assert HasRoom(s, x, p);
    hide Reaches, Writable;
    path, t := WholeWrite(w, s, x, p, "a", a, Elems(p.replicas) - {c});
    hide CommitEntry;
    assert t.meta.requestTable.Keys == {"a"};
    forall n | n in p.replicas ensures (n, x) in t.disks && t.disks[(n, x)] == if n == c then With(Opened, e) else CommitEntry(With(Opened, e), e) {
      assert n in Elems(p.replicas);
    }
  }

  lemma TwoWrites(w: World, s: State, x: int, p: Placement, c: Node, a: Mutation, b: Mutation) returns (path: seq<State>, t: State)
    requires FreshShard(s, x, p) && Writable(w, s, x, a) && Writable(w, s, x, b) && |p.replicas| >= 3 && c in p.replicas
    ensures Reaches(w, path, s, t) && Ready(t, x, p.(lastLogIndex := 2, committedIndex := 2))
    ensures {Ack("a", x, 1, 1), Ack("b", x, 1, 2)} <= t.acks
    ensures var e, f := EntryFor(w, p, "a", a), EntryFor(w, p.(lastLogIndex := 1, committedIndex := 1), "b", b);
      forall n :: n in p.replicas ==> (n, x) in t.disks && t.disks[(n, x)] == SecondState(n == c, e, f)
  {
    var e, q := EntryFor(w, p, "a", a), p.(lastLogIndex := 1, committedIndex := 1);
    var first, s1 := FirstWrite(w, s, x, p, c, a);
    assert Writable(w, s1, x, b);
    DistinctCardinality(p.replicas);
    hide Writable, Reaches, HasRoom, CommitEntry, With;
    var second;
    second, t := WholeWrite(w, s1, x, q, "b", b, Elems(p.replicas));
    path := Join(w, first, second, s, s1, t);
    forall n | n in p.replicas ensures n in Elems(p.replicas) {}
  }

  ghost function SecondState(skipped: bool, e: Entry, f: Entry): Replica {
    if skipped then CommitEntry(With(With(Opened, e), f), f) else CommitEntry(With(CommitEntry(With(Opened, e), e), f), f)
  }

  lemma SkipThenElect(w: World, s: State, x: int, p: Placement, c: Node, a: Mutation, b: Mutation) returns (path: seq<State>, t: State)
    requires FreshShard(s, x, p) && Writable(w, s, x, a) && Writable(w, s, x, b) && |p.replicas| >= 3
    requires c in p.replicas && Best(p.replicas, AllAt(p.replicas, 2)) == Some(c)
    ensures Reaches(w, path, s, t) && LeaderLacksFirst(t, x, c, b)
  {
    var e, q := EntryFor(w, p, "a", a), p.(lastLogIndex := 1, committedIndex := 1);
    var f := EntryFor(w, q, "b", b);
    var two, s2 := TwoWrites(w, s, x, p, c, a, b);
    SkippingReplica(e, f);
    CompleteReplica(e, f);
    forall n | n in p.replicas ensures (n, x) in s2.open { assert Current(s2, n, x, p.(lastLogIndex := 2, committedIndex := 2)); }
    hide Writable, CommitEntry, Reaches, Best, Ready, With, Apply, LeaderLacksFirst;
    assert forall n :: n in p.replicas ==> At(s2, n, x).appliedIndex == 2;
    var third;
    third, t := Elect(w, s2, x, p.(lastLogIndex := 2, committedIndex := 2), 2, c);
    path := Join(w, two, third, s, s2, t);
    LacksFirst(s2, t, x, p, c, e, f);
  }

  lemma LacksFirst(s: State, t: State, x: int, p: Placement, c: Node, e: Entry, f: Entry)
    requires e.index == 1 && f.index == 2 && c in p.replicas && p.term == 1 && t.pc == Idle && x in t.meta.shards
    requires t.meta.shards[x] == p.(lastLogIndex := 2, committedIndex := 2, term := 2, placementEpoch := p.placementEpoch + 1, leader := c)
    requires t.disks == s.disks && t.open == s.open && {Ack("a", x, 1, 1), Ack("b", x, 1, 2)} <= t.acks
    requires forall n :: n in p.replicas ==> (n, x) in s.open && (n, x) in s.disks && s.disks[(n, x)] == SecondState(n == c, e, f)
    ensures LeaderLacksFirst(t, x, c, f.mutation)
  {
    SkippingReplica(e, f);
    CompleteReplica(e, f);
    hide CommitEntry, With, Apply;
    forall n | n in p.replicas ensures At(t, n, x) == SecondState(n == c, e, f) && (n, x) in t.open {}
  }

  /** On every fresh cluster with at least three replicas for each shard, and for every two mutations
      of one shard, there is a run in which both writes are acknowledged, no commit comes late on any
      replica, and the election names a leader that is caught up by its applied index and lacks the
      first write. */
  lemma ElectedLeaderCanLackAcknowledged(w: World, s: State, nodes: seq<Node>, x: int, a: Mutation, b: Mutation)
      returns (run: seq<State>, t: State, c: Node)
    requires CollisionFree(w) && Init(w, s, nodes) && x in s.meta.shards && s.meta.replicationFactor >= 3
    requires Writable(w, s, x, a) && Writable(w, s, x, b)
    ensures Run(w, run) && run[0] == s && run[|run| - 1] == t && LeaderLacksFirst(t, x, c, b)
    ensures forall n :: n in t.meta.shards[x].replicas ==> NoneLate(run, |run| - 1, n, x)
    ensures Acked(t, x, 1) && !HasAcknowledged(t, c, x)
  {
    var p := s.meta.shards[x];
    InitialReplicasDiffer(s, nodes, x, w);
    assert p.committedIndex == 0 && p.lastLogIndex == 0 && p.term == 1 && p.placementEpoch == 1 && s.meta.requestTable == map[];
    c := Preferred(p.replicas, 2);
    var start, s0 := Open(w, s, nodes, x);
    hide Init, Reaches, Best, LeaderLacksFirst, NoneLate, HasAcknowledged;
    assert Writable(w, s0, x, a) && Writable(w, s0, x, b);
    hide Writable;
    var rest;
    rest, t := SkipThenElect(w, s0, x, p, c, a, b);
    run := Join(w, start, rest, s, s0, t);
    PathIsRun(w, run, s, t, nodes);
    EndsOf(w, run, s, t);
    NothingLate(w, run, t, x, c, b);
  }

  lemma NothingLate(w: World, run: seq<State>, t: State, x: int, c: Node, b: Mutation)
    requires CollisionFree(w) && Run(w, run) && run[|run| - 1] == t && LeaderLacksFirst(t, x, c, b)
    ensures forall n :: n in t.meta.shards[x].replicas ==> NoneLate(run, |run| - 1, n, x)
    ensures Acked(t, x, 1) && !HasAcknowledged(t, c, x)
  {
    forall n | n in t.meta.shards[x].replicas ensures NoneLate(run, |run| - 1, n, x) {
      ListedInTime(w, run, t, x, n, if n == c then [2] else [1, 2]);
    }
    ListedInTime(w, run, t, x, c, [2]);
    hide Run;
    assert Ack("a", x, 1, 1) in t.acks;
    assert View(t, c, x).Applied() == [2];
  }

  lemma ListedInTime(w: World, run: seq<State>, t: State, x: int, n: Node, indices: seq<int>)
    requires CollisionFree(w) && Run(w, run) && run[|run| - 1] == t && x in t.meta.shards && JustApplied(t, n, x, indices)
    ensures NoneLate(run, |run| - 1, n, x) && View(t, n, x) == At(t, n, x)
  {
    var last := |run| - 1;
    CollectionsFollowTheLog(w, run, last, n, x);
    hide Run, MarkedAbove;
    forall i | i in At(t, n, x).journal.committed ensures MarkedAbove(run, last, n, x, i) { AppliedExactly(w, run, last, n, x, i); }
  }
}
