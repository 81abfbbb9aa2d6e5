/** A whole cluster run in which catch-up ends below the committed index without raising: the only
    reachable caught-up source was itself added by a snapshot, and its journal holds no entry. */
module SnapshotSources {
  import opened Basics
  import opened Protocol
  import opened Replicas
  import opened Cluster
  import opened ClusterReconfiguration
  import opened Paths
  import opened SkippedCommits

  /** The added replica after its installation. */
  function Seeded(rows: Collection, epoch: int): Replica {
    Replica(1, epoch, 1, Journal(map[], {}, 1), rows, [1], [])
  }

  lemma EmptyTail(s: State, n: Node, x: int, after: int)
    requires forall i :: i in At(s, n, x).journal.committed ==> i <= after
    ensures Tail(s, n, x, after) == []
  {
    var j := At(s, n, x).journal;
    if WellFormed(j) {
      assert IndicesAfter(j, after) == {};
      assert SortedSeq(IndicesAfter(j, after)) == [];
    }
  }

  /** The added node has been configured and has installed the source's snapshot. */
  lemma Seed(w: World, s: State, x: int, p: Placement, source: Node, d: Node) returns (path: seq<State>, t: State)
    requires Ready(s, x, p) && p.term == 1 && p.placementEpoch == 1 && p.committedIndex == 1 && source in p.replicas
    requires d in s.meta.members && d !in p.replicas && (d, x) !in s.disks && (d, x) !in s.open
    requires At(s, source, x).appliedIndex == 1 && At(s, source, x).Applied() == [1]
    ensures Reaches(w, path, s, t)
    ensures t == s.(disks := s.disks[(d, x) := Seeded(At(s, source, x).collection, 2)], open := s.open + {(d, x)},
                    pc := Installed(x, d, source, 1))
  {
    var rows := At(s, source, x).collection;
    assert Current(s, source, x, p);
    hide Reaches;
    var a := OneStep(w, s, BeginRebalance(x, d, source));
    var s1 := s.(pc := Exported(x, d, source, rows, 1, [1], false));
    ConfigureFresh(s1, d, x, 1, 2);
    var blank := Fresh.(term := 1, placementEpoch := 2);
    var s2 := s.(disks := s.disks[(d, x) := blank], open := s.open + {(d, x)}, pc := Exported(x, d, source, rows, 1, [1], true));
    var b := ConfigureStep(w, s1, s2, x, p, d);
    var ab := Join(w, a, b, s, s1, s2);
    t := s.(disks := s.disks[(d, x) := Seeded(rows, 2)], open := s.open + {(d, x)}, pc := Installed(x, d, source, 1));
    var c := InstallStep(w, s2, t, x, p, d);
    path := Join(w, ab, c, s, s2, t);
  }

  lemma ConfigureStep(w: World, s: State, t: State, x: int, p: Placement, d: Node) returns (path: seq<State>)
    requires s.pc.Exported? && !s.pc.configured && s.pc.shard == x && s.pc.node == d && x in s.meta.shards && s.meta.shards[x] == p
    requires Answers(s, d, x, Configure(p.term, p.placementEpoch + 1), Answered)
    requires t == AfterRpc(s, d, x, Configure(p.term, p.placementEpoch + 1), Answered).(pc := s.pc.(configured := true))
    ensures Reaches(w, path, s, t)
  {
    hide Reaches, AfterRpc, Answers;
    path := OneStep(w, s, RebalanceConfigure(Answered));
  }

  lemma InstallStep(w: World, s: State, t: State, x: int, p: Placement, d: Node) returns (path: seq<State>)
    requires s.pc.Exported? && s.pc.configured && s.pc.shard == x && s.pc.node == d && s.pc.index == 1 && s.pc.applied == [1]
    requires x in s.meta.shards && s.meta.shards[x] == p && p.term == 1 && p.placementEpoch == 1
    requires (d, x) in s.open && (d, x) in s.disks && s.disks[(d, x)] == Fresh.(term := 1, placementEpoch := 2)
    requires t == s.(disks := s.disks[(d, x) := Seeded(s.pc.rows, 2)], pc := Installed(x, d, s.pc.source, 1))
    ensures Reaches(w, path, s, t)
  {
    var op := Install(s.pc.rows, 1, 1, 2, [1]);
    AnsweredCall(s, d, x, op);
    assert Done(x, s.meta.dimension, s.disks[(d, x)], op) == Seeded(s.pc.rows, 2);
    assert OnNodes(s.disks, {d}, x, s.meta.dimension, op) == s.disks[(d, x) := Seeded(s.pc.rows, 2)];
    hide Reaches, AfterRpc, Answers, OnNodes, Done;
    path := OneStep(w, s, InstallRpc(Answered));
  }

  /** With nothing to copy the added node becomes a replica at once. */
  lemma JoinShard(w: World, s: State, x: int, p: Placement, source: Node, d: Node) returns (path: seq<State>, t: State)
    requires s.pc == Installed(x, d, source, 1) && x in s.meta.shards && s.meta.shards[x] == p && p.shardId == x && (source, x) in s.open
    requires forall i :: i in At(s, source, x).journal.committed ==> i <= 1
    ensures Reaches(w, path, s, t)
    ensures t == s.(meta := Publish(s.meta, p.(replicas := p.replicas + [d], placementEpoch := p.placementEpoch + 1)), pc := Idle)
  {
    EmptyTail(s, source, x, 1);
    hide Reaches, Tail;
    var s1 := s.(pc := Copying(x, d, [], false, true));
    assert Restamp([], p.shardId, p.term, p.placementEpoch + 1) == [];
    var a := OneStep(w, s, FetchTail);
    var b := OneStep(w, s1, EndCopy);
    t := Next(w, s1, EndCopy);
    path := Join(w, a, b, s, s1, t);
  }

  /** The processes of some nodes die. */
  lemma {:induction false} CrashRound(w: World, s: State, nodes: seq<Node>) returns (path: seq<State>)
    ensures Reaches(w, path, s, s.(open := set k | k in s.open && k.0 !in nodes))
    decreases |nodes|
  {
    if nodes == [] {
      assert (set k | k in s.open && k.0 !in nodes) == s.open;
      Stay(w, s);
      path := [s];
    } else {
      var t := Crash(s, nodes[0]);
      hide Reaches;
      var a := OneStep(w, s, NodeCrash(nodes[0]));
      var b := CrashRound(w, t, nodes[1..]);
      assert nodes == [nodes[0]] + nodes[1..];
      assert (set k | k in t.open && k.0 !in nodes[1..]) == set k | k in s.open && k.0 !in nodes;
      path := Join(w, a, b, s, t, s.(open := set k | k in s.open && k.0 !in nodes));
    }
  }

  /** Bringing a replica that is behind by one epoch up to date. */
  lemma Reconfigure(w: World, s: State, x: int, p: Placement, c: Node) returns (path: seq<State>)
    requires s.pc == Idle && x in s.meta.shards && s.meta.shards[x] == p && c in p.replicas && (c, x) in s.open && (c, x) in s.disks
    requires s.disks[(c, x)].term <= p.term && s.disks[(c, x)].placementEpoch <= p.placementEpoch
    ensures Reaches(w, path, s, s.(disks := s.disks[(c, x) := s.disks[(c, x)].(term := p.term, placementEpoch := p.placementEpoch)]))
  {
    assert s.open + {(c, x)} == s.open;
    path := OneStep(w, s, ConfigureRpc(x, c, Answered));
  }

  // ---------------------------------------------------------------- the run

  /** The lagging member is open, and the only open replica at the committed index was seeded. */
  ghost predicate LeftBehind(t: State, x: int, c: Node, d: Node) {
    && t.pc == Idle && x in t.meta.shards && Ack("a", x, 1, 1) in t.acks && t.meta.shards[x].committedIndex == 1
    && c in t.meta.shards[x].replicas && (c, x) in t.open && At(t, c, x).appliedIndex == 0 && At(t, c, x).Applied() == []
    && (forall n :: CaughtUpSource(t, x, n) <==> n == d) && At(t, d, x).Applied() == [1]
  }

  lemma SomeOtherNode(nodes: seq<Node>, replicas: seq<Node>) returns (d: Node)
    requires NoDup(nodes) && NoDup(replicas) && |replicas| < |nodes|
    ensures d in nodes && d !in replicas
  {
    DistinctCardinality(nodes);
    DistinctCardinality(replicas);
    if Elems(nodes) <= Elems(replicas) { SubsetCardinality(Elems(nodes), Elems(replicas)); }
    var e: Node :| e in Elems(nodes) && e !in Elems(replicas);
    d := e;
  }

  /** From the first write, which `c` missed, to the state in which only the seeded node is left. */
  lemma SeedAndCrash(w: World, s: State, x: int, p: Placement, e: Entry, c: Node, d: Node, others: seq<Node>) returns (path: seq<State>, t: State)
    requires p.replicas == [c] + others && others != [] && c !in others && d !in p.replicas && p.term == 1 && p.placementEpoch == 1
    requires e.index == 1 && Ready(s, x, p) && p.committedIndex == 1 && Ack("a", x, 1, 1) in s.acks
    requires forall n :: n in p.replicas ==>
      (n, x) in s.disks && s.disks[(n, x)] == if n == c then With(Opened, e) else CommitEntry(With(Opened, e), e)
    requires d in s.meta.members && (d, x) !in s.disks && (d, x) !in s.open && forall k :: k in s.open ==> k.0 in p.replicas
    ensures Reaches(w, path, s, t) && LeftBehind(t, x, c, d)
    ensures forall i :: i in At(t, d, x).journal.committed ==> i <= At(t, c, x).appliedIndex
  {
    CompleteReplica(e, e.(index := 2));
    var source := others[0];
    assert source in p.replicas && c in p.replicas;
    assert Current(s, source, x, p) && Current(s, c, x, p);
    hide Reaches, CommitEntry;
    var a, s1 := Seed(w, s, x, p, source, d);
    var b, s2 := JoinShard(w, s1, x, p, source, d);
    var q := p.(replicas := p.replicas + [d], placementEpoch := 2);
    var ab := Join(w, a, b, s, s1, s2);
    assert c in q.replicas && s2.disks[(c, x)] == With(Opened, e);
    var f := Reconfigure(w, s2, x, q, c);
    var s3 := s2.(disks := s2.disks[(c, x) := With(Opened, e).(term := 1, placementEpoch := 2)]);
    var abf := Join(w, ab, f, s, s2, s3);
    var g := CrashRound(w, s3, others);
    t := s3.(open := set k | k in s3.open && k.0 !in others);
    path := Join(w, abf, g, s, s3, t);
    OnlySeeded(s, t, x, p, q, c, d, others);
  }

  lemma OnlySeeded(s: State, t: State, x: int, p: Placement, q: Placement, c: Node, d: Node, others: seq<Node>)
    requires p.replicas == [c] + others && q.replicas == p.replicas + [d] && d !in p.replicas && x in t.meta.shards && t.meta.shards[x] == q
    requires (d, x) in t.open && (forall k :: k in t.open ==> (k.0 in p.replicas && k.0 !in others) || k == (d, x))
    requires At(t, c, x).appliedIndex == 0 && At(t, d, x).appliedIndex == 1 && q.committedIndex == 1
    ensures forall n :: CaughtUpSource(t, x, n) <==> n == d
  {
  }

  /** On every fresh cluster with at least three replicas for each shard and a node to spare, there is
      a run that acknowledges a write, adds a replica by a snapshot, loses the other caught-up
      replicas, and ends a catch-up of the lagging member, without an error, below the committed
      index. */
  lemma CatchUpCanEndBehind(w: World, s: State, nodes: seq<Node>, x: int, a: Mutation)
      returns (run: seq<State>, t: State, c: Node, d: Node)
    requires Init(w, s, nodes) && x in s.meta.shards && 3 <= s.meta.replicationFactor < |nodes| && Writable(w, s, x, a)
    ensures Run(w, run) && run[0] == s && run[|run| - 1] == t && LeftBehind(t, x, c, d)
    ensures |run| >= 3 && run[|run| - 2].pc == Copying(x, c, [], false, false) && run[|run| - 3] == t
  {
    var p := s.meta.shards[x];
    InitialReplicasDiffer(s, nodes, x, w);
    NodesDiffer(s, nodes, w);
    assert p.committedIndex == 0 && p.lastLogIndex == 0 && p.term == 1 && p.placementEpoch == 1 && s.meta.requestTable == map[];
    c := p.replicas[0];
    d := SomeOtherNode(nodes, p.replicas);
    assert d in Elems(nodes);
    var others := p.replicas[1..];
    assert p.replicas == [c] + others && c !in others;
    var start, s0 := Open(w, s, nodes, x);
    assert d in s0.meta.members;
    assert Writable(w, s0, x, a);
    hide Init, Reaches, Writable;
    var e := EntryFor(w, p, "a", a);
    var first, s1 := FirstWrite(w, s0, x, p, c, a);
    var second;
    second, t := SeedAndCrash(w, s1, x, p.(lastLogIndex := 1, committedIndex := 1), e, c, d, others);
    run := Join(w, start, first, s, s0, s1);
    run := Join(w, run, second, s, s1, t);
    run := EndWithCatchUp(w, run, s, t, x, c, d);
    PathIsRun(w, run, s, t, nodes);
    EndsOf(w, run, s, t);
  }

  lemma EndWithCatchUp(w: World, before: seq<State>, s: State, t: State, x: int, c: Node, d: Node) returns (path: seq<State>)
    requires Reaches(w, before, s, t) && LeftBehind(t, x, c, d)
    requires forall i :: i in At(t, d, x).journal.committed ==> i <= At(t, c, x).appliedIndex
    ensures Reaches(w, path, s, t) && |path| >= 3 && path[|path| - 2].pc == Copying(x, c, [], false, false) && path[|path| - 3] == t
  {
    EmptyTail(t, d, x, At(t, c, x).appliedIndex);
    assert CaughtUpSource(t, x, d);
    var t1 := t.(pc := Copying(x, c, [], false, false));
    assert Restamp([], t.meta.shards[x].shardId, t.meta.shards[x].term, t.meta.shards[x].placementEpoch) == [];
    assert Next(w, t, BeginCatchUp(x, c, d)) == t1;
    assert Next(w, t1, EndCopy) == t;
    hide Tail, Next, Enabled;
    assert Follows(w, t, t1) && Follows(w, t1, t);
    hide Follows;
    path := before + [t1, t];
    forall i, j | 0 <= i < |path| && j == i + 1 && j < |path| ensures Follows(w, path[i], path[j]) {}
  }
}
