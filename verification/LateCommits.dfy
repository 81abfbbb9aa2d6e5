/** Whole cluster runs in which acknowledged writes are not where reads look for them, for every
    replication factor that allows it. */
module LateCommits {
  import opened Basics
  import opened Protocol
  import opened Replicas
  import opened Cluster
  import opened Paths

  // ---------------------------------------------------------------- a commit that comes late

  /** What becomes of one replica: index 1 prepared, index 2 prepared and committed, then the retried
      commit of index 1. */
  lemma LateReplica(e: Entry, f: Entry, late: Entry)
    requires e.index == 1 && f.index == 2 && late.index == 1 && late.checksum == e.checksum
    ensures var r := CommitEntry(With(With(Opened, e), f), f); var d := CommitEntry(r, late);
      && r.term == 1 && r.placementEpoch == 1 && r.journal.snapshotIndex == 0
      && 1 in r.journal.prepared && r.journal.prepared[1] == e
      && d.appliedIndex == 2 && d.own == [2] && d.seed == [] && d.journal.committed == {1, 2}
      && d.collection == Apply(map[], f.mutation)
  {
    var r0 := With(With(Opened, e), f);
    assert r0.journal.prepared[2] == f && r0.journal.prepared[1] == e;
    assert JournalPrepare(r0.journal, f) == Ok(r0.journal);
    var r := CommitEntry(r0, f);
    assert r.appliedIndex == 2 && r.own == [2] && r.journal.committed == {2};
    assert JournalPrepare(r.journal, late) == Ok(r.journal);
    assert {2} + {1} == {1, 2};
  }

  /** On every fresh cluster, whatever its replication factor, and for every two mutations of one
      shard, there is a run in which both writes are acknowledged and every replica of the shard has
      only the second: the first commit of write `a` is lost everywhere, write `b` commits, and the
      retry of `a` then commits an index that is not above the applied one. */
  lemma AcknowledgedWriteCanBeMissing(w: World, s: State, nodes: seq<Node>, x: int, a: Mutation, b: Mutation)
      returns (run: seq<State>, t: State)
    requires Init(w, s, nodes) && x in s.meta.shards && Writable(w, s, x, a) && Writable(w, s, x, b)
    ensures Run(w, run) && run[0] == s && run[|run| - 1] == t && t.pc == Idle
    ensures {Ack("a", x, 1, 1), Ack("b", x, 1, 2)} <= t.acks && x in t.meta.shards && t.meta.shards[x].committedIndex == 2
    ensures t.meta.shards[x].replicas == s.meta.shards[x].replicas
    ensures forall n :: n in t.meta.shards[x].replicas ==>
      && (n, x) in t.open && At(t, n, x).appliedIndex == 2 && At(t, n, x).journal.committed == {1, 2}
      && At(t, n, x).Applied() == [2] && At(t, n, x).collection == Apply(map[], b)
  {
    var p := s.meta.shards[x];
    assert p.committedIndex == 0 && p.lastLogIndex == 0 && p.term == 1 && p.placementEpoch == 1 && s.meta.requestTable == map[];
    var start, s0 := Open(w, s, nodes, x);
    hide Init, Writable, CommitEntry, Reaches, With, Apply;
    var rest;
    rest, t := LoseCommitRetry(w, s0, x, p, a, b);
    run := Join(w, start, rest, s, s0, t);
    PathIsRun(w, run, s, t, nodes);
    assert run[0] == s && run[|run| - 1] == t by { EndsOf(w, run, s, t); }
  }

  lemma LoseCommitRetry(w: World, s: State, x: int, p: Placement, a: Mutation, b: Mutation) returns (path: seq<State>, t: State)
    requires Ready(s, x, p) && Writable(w, s, x, a) && Writable(w, s, x, b)
    requires p.term == 1 && p.placementEpoch == 1 && p.lastLogIndex == 0 && p.committedIndex == 0 && s.meta.requestTable == map[]
    requires forall n :: n in p.replicas ==> (n, x) in s.disks && s.disks[(n, x)] == Opened
    ensures Reaches(w, path, s, t) && t.pc == Idle
    ensures {Ack("a", x, 1, 1), Ack("b", x, 1, 2)} <= t.acks && x in t.meta.shards && t.meta.shards[x].committedIndex == 2
    ensures t.meta.shards[x].replicas == p.replicas
    ensures forall n :: n in p.replicas ==>
      && (n, x) in t.open && At(t, n, x).appliedIndex == 2 && At(t, n, x).journal.committed == {1, 2}
      && At(t, n, x).Applied() == [2] && At(t, n, x).collection == Apply(map[], b)
  {
    var all := Elems(p.replicas);
    var e := EntryFor(w, p, "a", a);
    DistinctCardinality(p.replicas);
    var first, s1 := WholeWrite(w, s, x, p, "a", a, {});
    var q := p.(lastLogIndex := 1);
    var f := EntryFor(w, q, "b", b);
    assert Writable(w, s1, x, b) && Writable(w, s1, x, a);
    assert HasRoom(s1, x, q);
    var second, s2 := WholeWrite(w, s1, x, q, "b", b, all);
    var q2 := q.(lastLogIndex := 2, committedIndex := 2);
    var late := NewEntry(w, q2, 1, 1, "a", a);
    assert Writable(w, s2, x, a);
    LateReplica(e, f, late);
    hide Writable, CommitEntry, Reaches, With, HasRoom;
    forall n | n in p.replicas ensures s2.disks[(n, x)] == CommitEntry(With(With(Opened, e), f), f) {}
    var third;
    third, t := RetryAll(w, s2, x, q2, "a", a);
    var two := Join(w, first, second, s, s1, s2);
    path := Join(w, two, third, s, s2, t);
  }
}
