/** Building blocks for particular cluster runs: whole rounds of calls to all replicas of a shard, for
    every replication factor. */
module Paths {
  import opened Basics
  import opened Protocol
  import opened Replicas
  import opened Cluster
  import ClusterReconfiguration

  /** Consecutive states of a run. */
  ghost predicate Path(w: World, states: seq<State>) {
    |states| > 0 && forall i, j :: 0 <= i < |states| && j == i + 1 && j < |states| ==> Follows(w, states[i], states[j])
  }

  /** A path from one state to another. */
  ghost predicate Reaches(w: World, path: seq<State>, s: State, t: State) {
    Path(w, path) && path[0] == s && path[|path| - 1] == t
  }

  lemma PathIsRun(w: World, path: seq<State>, s: State, t: State, nodes: seq<Node>)
    requires Reaches(w, path, s, t) && Init(w, s, nodes)
    ensures Run(w, path)
  {
    hide Init, Follows;
  }

  lemma EndsOf(w: World, path: seq<State>, s: State, t: State)
    requires Reaches(w, path, s, t)
    ensures |path| > 0 && path[0] == s && path[|path| - 1] == t
  {
  }

  lemma Stay(w: World, s: State)
    ensures Reaches(w, [s], s, s)
  {
  }

  lemma OneStep(w: World, s: State, step: Step) returns (path: seq<State>)
    requires Enabled(w, s, step)
    ensures Reaches(w, path, s, Next(w, s, step))
  {
    hide Enabled, Next;
    path := [s, Next(w, s, step)];
    assert Follows(w, s, path[1]);
  }

  lemma Join(w: World, a: seq<State>, b: seq<State>, s: State, t: State, u: State) returns (path: seq<State>)
    requires Reaches(w, a, s, t) && Reaches(w, b, t, u)
    ensures Reaches(w, path, s, u)
  {
    hide Follows;
    path := a + b[1..];
    forall i, j | 0 <= i < |path| && j == i + 1 && j < |path| ensures Follows(w, path[i], path[j]) {
      if i >= |a| - 1 { assert path[i] == b[i - (|a| - 1)] && path[j] == b[j - (|a| - 1)]; }
    }
  }

  // ---------------------------------------------------------------- one call

  /** The replica after an operation that ran to its end. */
  ghost function Done(shard: int, dimension: int, r: Replica, op: Op): Replica {
    var stages := Stages(shard, dimension, r, op);
    stages[|stages| - 1]
  }

  /** The disks after the operation ran on some nodes of a shard. */
  ghost function OnNodes(disks: map<Key, Replica>, nodes: set<Node>, shard: int, dimension: int, op: Op): map<Key, Replica> {
    map k | k in disks :: if k.1 == shard && k.0 in nodes then Done(shard, dimension, disks[k], op) else disks[k]
  }

  /** The replica is open and takes the operation. */
  ghost predicate Takes(s: State, n: Node, shard: int, op: Op) {
    (n, shard) in s.open && (n, shard) in s.disks && Accepts(shard, s.meta.dimension, s.disks[(n, shard)], op)
  }

  lemma AnsweredCall(s: State, n: Node, shard: int, op: Op)
    requires Takes(s, n, shard, op) && !op.Configure?
    ensures Answers(s, n, shard, op, Answered)
    ensures AfterRpc(s, n, shard, op, Answered) == s.(disks := OnNodes(s.disks, {n}, shard, s.meta.dimension, op))
  {
    hide Stages, Accepts;
    var d := Done(shard, s.meta.dimension, s.disks[(n, shard)], op);
    assert s.disks[(n, shard) := d] == OnNodes(s.disks, {n}, shard, s.meta.dimension, op);
  }

  lemma OneMoreNode(disks: map<Key, Replica>, n: Node, nodes: set<Node>, shard: int, dimension: int, op: Op)
    requires n !in nodes
    ensures OnNodes(OnNodes(disks, {n}, shard, dimension, op), nodes, shard, dimension, op) == OnNodes(disks, {n} + nodes, shard, dimension, op)
  {
    hide Done;
  }

  lemma NoNodes(disks: map<Key, Replica>, shard: int, dimension: int, op: Op)
    ensures OnNodes(disks, {}, shard, dimension, op) == disks
  {
  }

  lemma FirstNode(todo: seq<Node>)
    requires todo != [] && NoDup(todo)
    ensures NoDup(todo[1..]) && todo[0] !in Elems(todo[1..]) && Elems(todo) == {todo[0]} + Elems(todo[1..])
  {
    assert todo == [todo[0]] + todo[1..];
    forall i, j | 0 <= i < j < |todo[1..]| ensures todo[1..][i] != todo[1..][j] { assert todo[i + 1] != todo[j + 1]; }
  }

  lemma StillTakes(s: State, t: State, nodes: set<Node>, m: Node, shard: int, op: Op)
    requires Takes(s, m, shard, op) && m !in nodes
    requires t == s.(disks := OnNodes(s.disks, nodes, shard, s.meta.dimension, op), pc := t.pc)
    ensures Takes(t, m, shard, op)
  {
  }

  // ---------------------------------------------------------------- rounds

  /** Prepare on every node that is left. */
  lemma {:induction false} PrepareRound(w: World, s: State, e: Entry, todo: seq<Node>, done: set<Node>) returns (path: seq<State>)
    requires s.pc == Preparing(e, todo, done) && NoDup(todo)
    requires forall n :: n in todo ==> Takes(s, n, e.shardId, Prepare(e))
    ensures Reaches(w, path, s, s.(disks := OnNodes(s.disks, Elems(todo), e.shardId, s.meta.dimension, Prepare(e)),
                                  pc := Preparing(e, [], done + Elems(todo))))
    decreases |todo|
  {
    if todo == [] {
      NoNodes(s.disks, e.shardId, s.meta.dimension, Prepare(e));
      assert done + Elems(todo) == done;
      Stay(w, s);
      path := [s];
    } else {
      var n, rest := todo[0], todo[1..];
      FirstNode(todo);
      AnsweredCall(s, n, e.shardId, Prepare(e));
      hide AfterRpc, Answers, Reaches, Accepts, Done;
      var t := Next(w, s, PrepareRpc(Answered));
      assert t == s.(disks := OnNodes(s.disks, {n}, e.shardId, s.meta.dimension, Prepare(e)), pc := Preparing(e, rest, done + {n}));
      var first := OneStep(w, s, PrepareRpc(Answered));
      forall m | m in rest ensures Takes(t, m, e.shardId, Prepare(e)) { StillTakes(s, t, {n}, m, e.shardId, Prepare(e)); }
      var tail := PrepareRound(w, t, e, rest, done + {n});
      OneMoreNode(s.disks, n, Elems(rest), e.shardId, s.meta.dimension, Prepare(e));
      assert done + {n} + Elems(rest) == done + Elems(todo);
      path := Join(w, first, tail, s, t,
                   s.(disks := OnNodes(s.disks, Elems(todo), e.shardId, s.meta.dimension, Prepare(e)), pc := Preparing(e, [], done + Elems(todo))));
    }
  }

  /** The state in which some nodes have taken the commit and `todo` are left. */
  ghost function Counted(s: State, e: Entry, nodes: set<Node>, todo: seq<Node>, done: set<Node>): State {
    s.(disks := OnNodes(s.disks, nodes, e.shardId, s.meta.dimension, Commit(e)), pc := Committing(e, todo, done + nodes))
  }

  /** One commit call, lost unless the node is among those reached. */
  lemma CommitCall(w: World, s: State, e: Entry, todo: seq<Node>, done: set<Node>, reached: set<Node>) returns (path: seq<State>)
    requires s.pc == Committing(e, todo, done) && todo != []
    requires todo[0] in reached ==> Takes(s, todo[0], e.shardId, Commit(e))
    ensures Reaches(w, path, s, Counted(s, e, {todo[0]} * reached, todo[1..], done))
  {
    var n := todo[0];
    var out := if n in reached then Answered else NotDelivered;
    if n in reached {
      assert {n} * reached == {n};
      AnsweredCall(s, n, e.shardId, Commit(e));
    } else {
      assert {n} * reached == {};
      NoNodes(s.disks, e.shardId, s.meta.dimension, Commit(e));
      LostCall(s, n, e.shardId, Commit(e));
      assert done + {} == done;
    }
    hide AfterRpc, Answers, Reaches, Accepts, Done;
    path := OneStep(w, s, CommitRpc(out));
  }

  /** Commit on the nodes of `reached`; the calls to the others are lost. */
  lemma {:induction false} CommitRound(w: World, s: State, e: Entry, todo: seq<Node>, done: set<Node>, reached: set<Node>) returns (path: seq<State>)
    requires s.pc == Committing(e, todo, done) && NoDup(todo)
    requires forall n :: n in todo && n in reached ==> Takes(s, n, e.shardId, Commit(e))
    ensures Reaches(w, path, s, Counted(s, e, Elems(todo) * reached, [], done))
    decreases |todo|
  {
    if todo == [] {
      assert Elems(todo) * reached == {};
      NoNodes(s.disks, e.shardId, s.meta.dimension, Commit(e));
      assert done + Elems(todo) * reached == done;
      Stay(w, s);
      path := [s];
    } else {
      var n, rest := todo[0], todo[1..];
      var one := {n} * reached;
      FirstNode(todo);
      var first := CommitCall(w, s, e, todo, done, reached);
      var t := Counted(s, e, one, rest, done);
      forall m | m in rest && m in reached ensures Takes(t, m, e.shardId, Commit(e)) {
        StillTakes(s, t, one, m, e.shardId, Commit(e));
      }
      hide Reaches, Done, Takes;
      var tail := CommitRound(w, t, e, rest, done + one, reached);
      CommitsAdd(s, e, n, Elems(rest), done, reached);
      path := Join(w, first, tail, s, t, Counted(s, e, Elems(todo) * reached, [], done));
    }
  }

  lemma CommitsAdd(s: State, e: Entry, n: Node, rest: set<Node>, done: set<Node>, reached: set<Node>)
    requires n !in rest
    ensures forall todo :: Counted(Counted(s, e, {n} * reached, todo, done), e, rest * reached, [], done + {n} * reached)
                        == Counted(s, e, ({n} + rest) * reached, [], done)
  {
    assert ({n} + rest) * reached == {n} * reached + rest * reached;
    assert done + {n} * reached + rest * reached == done + ({n} * reached + rest * reached);
    if n in reached {
      assert {n} * reached == {n};
      OneMoreNode(s.disks, n, rest * reached, e.shardId, s.meta.dimension, Commit(e));
    } else {
      assert {n} * reached == {};
      NoNodes(s.disks, e.shardId, s.meta.dimension, Commit(e));
      assert {} + rest * reached == rest * reached;
    }
  }

  lemma LostCall(s: State, n: Node, shard: int, op: Op)
    ensures AfterRpc(s, n, shard, op, NotDelivered) == s && !Answers(s, n, shard, op, NotDelivered)
  {
  }

  // ---------------------------------------------------------------- writes

  /** An idle cluster seen at a shard whose replicas are all open and current. */
  ghost predicate Ready(s: State, x: int, p: Placement) {
    && s.pc == Idle && x in s.meta.shards && s.meta.shards[x] == p && p.shardId == x
    && NoDup(p.replicas) && p.leader in p.replicas && s.meta.shardCount > 0
    && forall n :: n in p.replicas ==> Current(s, n, x, p)
  }

  ghost predicate Current(s: State, n: Node, x: int, p: Placement) {
    && (n, x) in s.open && (n, x) in s.disks
    && s.disks[(n, x)].term == p.term && s.disks[(n, x)].placementEpoch == p.placementEpoch
  }

  /** The entry that a write of `m` under `req` sends next. */
  ghost function EntryFor(w: World, p: Placement, req: string, m: Mutation): Entry {
    NewEntry(w, p, p.placementEpoch, p.lastLogIndex + 1, req, m)
  }

  function With(r: Replica, e: Entry): Replica {
    r.(journal := r.journal.(prepared := r.journal.prepared[e.index := e]))
  }

  ghost predicate Writable(w: World, s: State, x: int, m: Mutation) {
    m in w.submitted && ValidMutation(m, Some(s.meta.dimension)) && s.meta.shardCount > 0 && Route(m.id, s.meta.shardCount) == x
  }

  ghost predicate HasRoom(s: State, x: int, p: Placement) {
    forall n :: n in p.replicas && (n, x) in s.disks ==>
      s.disks[(n, x)].journal.snapshotIndex <= p.lastLogIndex && p.lastLogIndex + 1 !in s.disks[(n, x)].journal.prepared
  }

  /** The disks after every replica of the shard has prepared the entry. */
  ghost predicate AllHold(disks: map<Key, Replica>, after: map<Key, Replica>, x: int, p: Placement, e: Entry) {
    && after.Keys == disks.Keys
    && (forall n :: n in p.replicas ==> (n, x) in disks && after[(n, x)] == With(disks[(n, x)], e))
    && (forall k :: k in disks && (k.1 != x || k.0 !in p.replicas) ==> after[k] == disks[k])
  }

  lemma PreparedOnAll(s: State, x: int, p: Placement, e: Entry)
    requires e.shardId == x && forall n :: n in p.replicas ==> Takes(s, n, x, Prepare(e))
    requires forall n :: n in p.replicas ==> (n, x) in s.disks && e.index !in s.disks[(n, x)].journal.prepared
    ensures AllHold(s.disks, OnNodes(s.disks, Elems(p.replicas), x, s.meta.dimension, Prepare(e)), x, p, e)
  {
    hide Accepts;
    forall n | n in p.replicas ensures Done(x, s.meta.dimension, s.disks[(n, x)], Prepare(e)) == With(s.disks[(n, x)], e) {
      assert Takes(s, n, x, Prepare(e));
    }
  }

  lemma NewEntryIsTaken(w: World, s: State, x: int, p: Placement, req: string, m: Mutation, n: Node)
    requires Ready(s, x, p) && Writable(w, s, x, m) && HasRoom(s, x, p) && n in p.replicas
    ensures Takes(s, n, x, Prepare(EntryFor(w, p, req, m)))
  {
    assert Current(s, n, x, p);
    hide ValidMutation, Route;
  }

  /** What registration has done to everything but the disks. */
  ghost predicate RegisteredIn(w: World, s: State, t: State, x: int, p: Placement, req: string, m: Mutation) {
    && t.open == s.open && t.acks == s.acks
    && t.meta == s.meta.(shards := s.meta.shards[x := p.(lastLogIndex := p.lastLogIndex + 1)],
                         requestTable := s.meta.requestTable[req := Record(w, EntryFor(w, p, req, m), Prepared)], epoch := s.meta.epoch + 2)
  }

  ghost function Allocated(w: World, s: State, x: int, p: Placement, req: string, m: Mutation): State {
    var e := EntryFor(w, p, req, m);
    s.(meta := Publish(s.meta, p.(lastLogIndex := p.lastLogIndex + 1)), pc := Preparing(e, p.replicas, {}),
       issued := s.issued[(x, e.index) := (req, m)])
  }

  lemma Allocate(w: World, s: State, x: int, p: Placement, req: string, m: Mutation) returns (path: seq<State>)
    requires Ready(s, x, p) && Writable(w, s, x, m) && req != "" && req !in s.meta.requestTable
    ensures Reaches(w, path, s, Allocated(w, s, x, p, req, m))
  {
    hide Reaches, ValidMutation, Route;
    path := OneStep(w, s, BeginWrite(req, m));
  }

  lemma EndRegistration(w: World, s: State, e: Entry, p: Placement) returns (path: seq<State>)
    requires s.pc == Preparing(e, [], {} + Elems(p.replicas)) && e.shardId in s.meta.shards && s.meta.shards[e.shardId] == p
    requires NoDup(p.replicas) && p.leader in p.replicas
    ensures Reaches(w, path, s,
      s.(meta := s.meta.(requestTable := s.meta.requestTable[e.requestId := Record(w, e, Prepared)], epoch := s.meta.epoch + 1),
         pc := Committing(e, p.replicas, {})))
  {
    hide Reaches;
    DistinctCardinality(p.replicas);
    path := OneStep(w, s, EndPrepare);
  }

  /** Registration: allocate, prepare on every replica, and record the request. */
  lemma Register(w: World, s: State, x: int, p: Placement, req: string, m: Mutation) returns (path: seq<State>, t: State)
    requires Ready(s, x, p) && Writable(w, s, x, m) && HasRoom(s, x, p) && req != "" && req !in s.meta.requestTable
    ensures Reaches(w, path, s, t)
    ensures RegisteredIn(w, s, t, x, p, req, m)
    ensures var e := EntryFor(w, p, req, m); t.pc == Committing(e, p.replicas, {}) && AllHold(s.disks, t.disks, x, p, e)
  {
    var e, s1 := EntryFor(w, p, req, m), Allocated(w, s, x, p, req, m);
    forall n | n in p.replicas ensures Takes(s, n, x, Prepare(e)) { NewEntryIsTaken(w, s, x, p, req, m, n); }
    forall n | n in p.replicas ensures Takes(s1, n, x, Prepare(e)) { assert Takes(s, n, x, Prepare(e)); }
    PreparedOnAll(s1, x, p, e);
    hide Takes, OnNodes, Reaches, Writable, AllHold, HasRoom, Elems, Current;
    var a := Allocate(w, s, x, p, req, m);
    var b := PrepareRound(w, s1, e, p.replicas, {});
    var s2 := s1.(disks := OnNodes(s1.disks, Elems(p.replicas), x, s1.meta.dimension, Prepare(e)), pc := Preparing(e, [], {} + Elems(p.replicas)));
    var c := Join(w, a, b, s, s1, s2);
    var d := EndRegistration(w, s2, e, p.(lastLogIndex := p.lastLogIndex + 1));
    t := s2.(meta := s2.meta.(requestTable := s2.meta.requestTable[e.requestId := Record(w, e, Prepared)], epoch := s2.meta.epoch + 1),
             pc := Committing(e, p.replicas, {}));
    path := Join(w, c, d, s, s2, t);
  }

  /** The disks after the reached replicas have committed the entry. */
  ghost predicate ReachedHold(disks: map<Key, Replica>, after: map<Key, Replica>, x: int, p: Placement, e: Entry, reached: set<Node>) {
    && after.Keys == disks.Keys
    && (forall n :: n in p.replicas ==>
          (n, x) in disks && after[(n, x)] == if n in reached then CommitEntry(disks[(n, x)], e) else disks[(n, x)])
    && (forall k :: k in disks && (k.1 != x || k.0 !in p.replicas) ==> after[k] == disks[k])
  }

  lemma CommittedOnReached(s: State, x: int, p: Placement, e: Entry, reached: set<Node>)
    requires e.shardId == x && forall n :: n in p.replicas && n in reached ==> Takes(s, n, x, Commit(e))
    requires forall n :: n in p.replicas ==> (n, x) in s.disks
    ensures ReachedHold(s.disks, OnNodes(s.disks, Elems(p.replicas) * reached, x, s.meta.dimension, Commit(e)), x, p, e, reached)
  {
    forall n | n in p.replicas && n in reached
      ensures Done(x, s.meta.dimension, s.disks[(n, x)], Commit(e)) == CommitEntry(s.disks[(n, x)], e)
    {
      assert Takes(s, n, x, Commit(e));
    }
    hide Done, CommitEntry;
  }

  /** The outcome of a commit round that reached a quorum, or not. */
  ghost predicate Finished(w: World, s: State, t: State, x: int, p: Placement, e: Entry, acknowledged: bool) {
    && t.pc == Idle && t.open == s.open
    && t.acks == (if acknowledged then s.acks + {Ack(e.requestId, x, e.term, e.index)} else s.acks)
    && t.meta == (
      if acknowledged then
        s.meta.(shards := s.meta.shards[x := p.(committedIndex := if e.index > p.committedIndex then e.index else p.committedIndex)],
                requestTable := s.meta.requestTable[e.requestId := RequestRecord(x, e.term, e.index, w.crc(e.mutation), Status.Committed)],
                epoch := s.meta.epoch + 1)
      else s.meta)
  }

  /** A commit round that reaches some of the replicas, and its end. */
  lemma Finish(w: World, s: State, x: int, p: Placement, e: Entry, reached: set<Node>) returns (path: seq<State>, t: State)
    requires s.pc == Committing(e, p.replicas, {}) && e.shardId == x && x in s.meta.shards && s.meta.shards[x] == p && p.shardId == x
    requires NoDup(p.replicas) && reached <= Elems(p.replicas) && forall n :: n in p.replicas ==> (n, x) in s.disks
    requires forall n :: n in p.replicas && n in reached ==> Takes(s, n, x, Commit(e))
    ensures Reaches(w, path, s, t)
    ensures Finished(w, s, t, x, p, e, |reached| >= p.Quorum()) && ReachedHold(s.disks, t.disks, x, p, e, reached)
  {
    CommittedOnReached(s, x, p, e, reached);
    assert Elems(p.replicas) * reached == reached;
    hide Takes, OnNodes, Reaches, ReachedHold, Elems;
    var a := CommitRound(w, s, e, p.replicas, {}, reached);
    var s1 := Counted(s, e, reached, [], {});
    assert {} + reached == reached;
    var b;
    b, t := EndRound(w, s, s1, x, p, e, reached);
    path := Join(w, a, b, s, s1, t);
  }

  lemma EndRound(w: World, s: State, s1: State, x: int, p: Placement, e: Entry, reached: set<Node>) returns (path: seq<State>, t: State)
    requires e.shardId == x && x in s.meta.shards && s.meta.shards[x] == p && p.shardId == x
    requires s1 == s.(disks := s1.disks, pc := Committing(e, [], reached))
    ensures Reaches(w, path, s1, t) && Finished(w, s, t, x, p, e, |reached| >= p.Quorum()) && t.disks == s1.disks
  {
    hide Reaches;
    t := Next(w, s1, EndCommit);
    path := OneStep(w, s1, EndCommit);
  }

  /** The placement after a write whose commit reached some of the replicas. */
  function Grown(p: Placement, acknowledged: bool): Placement {
    var i := p.lastLogIndex + 1;
    p.(lastLogIndex := i, committedIndex := if acknowledged && i > p.committedIndex then i else p.committedIndex)
  }

  /** The outcome of a write whose commit reached some of the replicas. */
  ghost predicate Wrote(w: World, s: State, t: State, x: int, p: Placement, req: string, m: Mutation, reached: set<Node>) {
    && Ready(t, x, Grown(p, |reached| >= p.Quorum()))
    && WroteMetadata(w, s, t, x, p, req, m, |reached| >= p.Quorum())
    && WroteDisks(s, t, x, p, EntryFor(w, p, req, m), reached)
  }

  ghost predicate WroteMetadata(w: World, s: State, t: State, x: int, p: Placement, req: string, m: Mutation, acknowledged: bool) {
    && t.acks == (if acknowledged then s.acks + {Ack(req, x, p.term, p.lastLogIndex + 1)} else s.acks)
    && t.meta.requestTable == s.meta.requestTable[
         req := RequestRecord(x, p.term, p.lastLogIndex + 1, w.crc(m), if acknowledged then Status.Committed else Prepared)]
    && t.meta.shardCount == s.meta.shardCount && t.meta.dimension == s.meta.dimension && t.meta.members == s.meta.members
  }

  ghost predicate WroteDisks(s: State, t: State, x: int, p: Placement, e: Entry, reached: set<Node>) {
    && t.open == s.open && t.disks.Keys == s.disks.Keys
    && (forall n :: n in p.replicas ==>
          (n, x) in s.disks && t.disks[(n, x)] == if n in reached then CommitEntry(With(s.disks[(n, x)], e), e) else With(s.disks[(n, x)], e))
  }

  lemma WholeWrite(w: World, s: State, x: int, p: Placement, req: string, m: Mutation, reached: set<Node>) returns (path: seq<State>, t: State)
    requires Ready(s, x, p) && Writable(w, s, x, m) && HasRoom(s, x, p) && req != "" && req !in s.meta.requestTable
    requires reached <= Elems(p.replicas)
    ensures Reaches(w, path, s, t) && Wrote(w, s, t, x, p, req, m, reached)
  {
    hide Reaches, Takes, Writable, HasRoom, Wrote, Finished, ReachedHold, AllHold, RegisteredIn, Current;
    var e := EntryFor(w, p, req, m);
    var a, s1 := Register(w, s, x, p, req, m);
    ReadyToFinish(w, s, s1, x, p, req, m);
    var b;
    b, t := Finish(w, s1, x, p.(lastLogIndex := p.lastLogIndex + 1), e, reached);
    WroteInTwo(w, s, s1, t, x, p, req, m, reached);
    path := Join(w, a, b, s, s1, t);
  }

  /** After registration every replica would take the commit. */
  lemma ReadyToFinish(w: World, s: State, s1: State, x: int, p: Placement, req: string, m: Mutation)
    requires Ready(s, x, p) && Writable(w, s, x, m) && HasRoom(s, x, p)
    requires RegisteredIn(w, s, s1, x, p, req, m) && AllHold(s.disks, s1.disks, x, p, EntryFor(w, p, req, m))
    ensures x in s1.meta.shards && s1.meta.shards[x] == p.(lastLogIndex := p.lastLogIndex + 1)
    ensures forall n :: n in p.replicas ==> (n, x) in s1.disks && Takes(s1, n, x, Commit(EntryFor(w, p, req, m)))
  {
    hide Writable, HasRoom;
    var e := EntryFor(w, p, req, m);
    forall n | n in p.replicas ensures (n, x) in s1.disks && Takes(s1, n, x, Commit(e)) {
      NewEntryIsTaken(w, s, x, p, req, m, n);
      PreparedIsTaken(s, s1, n, x, e);
    }
  }

  lemma WroteInTwo(w: World, s: State, s1: State, t: State, x: int, p: Placement, req: string, m: Mutation, reached: set<Node>)
    requires Ready(s, x, p) && RegisteredIn(w, s, s1, x, p, req, m)
    requires var e, q := EntryFor(w, p, req, m), p.(lastLogIndex := p.lastLogIndex + 1);
      && AllHold(s.disks, s1.disks, x, p, e)
      && Finished(w, s1, t, x, q, e, |reached| >= p.Quorum()) && ReachedHold(s1.disks, t.disks, x, q, e, reached)
    ensures Wrote(w, s, t, x, p, req, m, reached)
  {
    hide AllHold, ReachedHold, WroteDisks, WroteMetadata;
    MetadataInTwo(w, s, s1, t, x, p, req, m, |reached| >= p.Quorum());
    StillCurrent(s, s1, t, x, p, EntryFor(w, p, req, m), reached);
    hide Current, Finished, RegisteredIn;
  }

  lemma MetadataInTwo(w: World, s: State, s1: State, t: State, x: int, p: Placement, req: string, m: Mutation, acknowledged: bool)
    requires p.shardId == x && RegisteredIn(w, s, s1, x, p, req, m)
    requires Finished(w, s1, t, x, p.(lastLogIndex := p.lastLogIndex + 1), EntryFor(w, p, req, m), acknowledged)
    ensures WroteMetadata(w, s, t, x, p, req, m, acknowledged)
    ensures t.pc == Idle && t.open == s.open && x in t.meta.shards && t.meta.shards[x] == Grown(p, acknowledged)
  {
    var rec := RequestRecord(x, p.term, p.lastLogIndex + 1, w.crc(m), Status.Committed);
    assert s1.meta.requestTable[req := rec] == s.meta.requestTable[req := rec];
  }

  lemma StillCurrent(s: State, s1: State, t: State, x: int, p: Placement, e: Entry, reached: set<Node>)
    requires AllHold(s.disks, s1.disks, x, p, e) && ReachedHold(s1.disks, t.disks, x, p.(lastLogIndex := p.lastLogIndex + 1), e, reached)
    requires t.open == s.open && forall n :: n in p.replicas ==> Current(s, n, x, p)
    ensures WroteDisks(s, t, x, p, e, reached)
    ensures forall n, q: Placement :: n in p.replicas && q.term == p.term && q.placementEpoch == p.placementEpoch ==> Current(t, n, x, q)
  {
    hide CommitEntry;
    forall n | n in p.replicas ensures (n, x) in t.disks && t.disks[(n, x)].term == p.term && t.disks[(n, x)].placementEpoch == p.placementEpoch {
      assert Current(s, n, x, p);
      StampsStay(With(s.disks[(n, x)], e), e);
    }
  }

  lemma PreparedIsTaken(s: State, t: State, n: Node, x: int, e: Entry)
    requires Takes(s, n, x, Prepare(e)) && (n, x) in t.open && (n, x) in t.disks && t.disks[(n, x)] == With(s.disks[(n, x)], e)
    requires t.meta.dimension == s.meta.dimension
    ensures Takes(t, n, x, Commit(e))
  {
  }

  lemma StampsStay(r: Replica, e: Entry)
    ensures CommitEntry(r, e).term == r.term && CommitEntry(r, e).placementEpoch == r.placementEpoch
  {
  }

  /** The retry of a registered write whose commit reaches every replica. */
  lemma RetryAll(w: World, s: State, x: int, p: Placement, req: string, m: Mutation) returns (path: seq<State>, t: State)
    requires Ready(s, x, p) && Writable(w, s, x, m) && req in s.meta.requestTable
    requires s.meta.requestTable[req].checksum == w.crc(m) && s.meta.requestTable[req].status.Prepared?
    requires forall n :: n in p.replicas && (n, x) in s.disks ==>
      s.meta.requestTable[req].index in s.disks[(n, x)].journal.prepared
      && s.disks[(n, x)].journal.prepared[s.meta.requestTable[req].index].checksum == w.crc(m)
    ensures var e := NewEntry(w, p, p.placementEpoch, s.meta.requestTable[req].index, req, m);
      Reaches(w, path, s, t) && Finished(w, s, t, x, p, e, true) && ReachedHold(s.disks, t.disks, x, p, e, Elems(p.replicas))
  {
    var e := NewEntry(w, p, p.placementEpoch, s.meta.requestTable[req].index, req, m);
    var s1 := s.(pc := Committing(e, p.replicas, {}));
    forall n | n in p.replicas ensures Takes(s1, n, x, Commit(e)) { assert Current(s, n, x, p); }
    hide Takes, Reaches, ValidMutation, Route, Finished, ReachedHold, Current;
    var a := OneStep(w, s, RetryPrepared(req, m));
    DistinctCardinality(p.replicas);
    var b;
    b, t := Finish(w, s1, x, p, e, Elems(p.replicas));
    path := Join(w, a, b, s, s1, t);
    FinishedFrame(w, s, s1, t, x, p, e);
  }

  lemma FinishedFrame(w: World, s: State, s1: State, t: State, x: int, p: Placement, e: Entry)
    requires Finished(w, s1, t, x, p, e, true) && s1 == s.(pc := s1.pc)
    ensures Finished(w, s, t, x, p, e, true)
  {
  }

  // ---------------------------------------------------------------- opening a fresh cluster

  const Opened := Fresh.(term := 1, placementEpoch := 1)

  ghost function KeysOf(nodes: set<Node>, x: int): set<Key> { set n | n in nodes :: (n, x) }

  ghost function OpenedOn(s: State, nodes: set<Node>, x: int): State {
    s.(disks := map k | k in s.disks.Keys + KeysOf(nodes, x) :: if k in KeysOf(nodes, x) then Opened else s.disks[k],
       open := s.open + KeysOf(nodes, x))
  }

  lemma NothingCommitted()
    ensures WellFormed(Fresh.journal) && Reopen(Fresh) == Fresh && ReopenStages(Fresh) == [Fresh]
  {
    assert CommittedAfter(Fresh.journal, 0) == [];
  }

  lemma ConfigureFresh(s: State, n: Node, x: int, term: int, epoch: int)
    requires (n, x) !in s.disks && (n, x) !in s.open && term >= 0 && epoch >= 0
    ensures Answers(s, n, x, Configure(term, epoch), Answered)
    ensures AfterRpc(s, n, x, Configure(term, epoch), Answered) ==
      s.(disks := s.disks[(n, x) := Fresh.(term := term, placementEpoch := epoch)], open := s.open + {(n, x)})
  {
    NothingCommitted();
    hide Reopen, ReopenStages;
  }

  lemma OpenCall(w: World, s: State, x: int, n: Node) returns (path: seq<State>)
    requires s.pc == Idle && x in s.meta.shards && n in s.meta.shards[x].replicas
    requires s.meta.shards[x].term == 1 && s.meta.shards[x].placementEpoch == 1 && (n, x) !in s.disks && (n, x) !in s.open
    ensures Reaches(w, path, s, OpenedOn(s, {n}, x))
  {
    ConfigureFresh(s, n, x, 1, 1);
    assert s.disks[(n, x) := Opened] == OpenedOn(s, {n}, x).disks;
    assert s.open + {(n, x)} == OpenedOn(s, {n}, x).open;
    hide Reaches, AfterRpc, Answers, OpenedOn;
    path := OneStep(w, s, ConfigureRpc(x, n, Answered));
    assert Next(w, s, ConfigureRpc(x, n, Answered)) == OpenedOn(s, {n}, x) by { OpenedFrame(s, {n}, x); OpenedParts(s, n, x); }
  }

  lemma OpenedParts(s: State, n: Node, x: int)
    ensures OpenedOn(s, {n}, x) == s.(disks := OpenedOn(s, {n}, x).disks, open := OpenedOn(s, {n}, x).open)
  {
  }

  lemma OpenedFrame(s: State, nodes: set<Node>, x: int)
    ensures OpenedOn(s, nodes, x).pc == s.pc && OpenedOn(s, nodes, x).meta == s.meta
  {
  }

  lemma NoneOpened(s: State, nodes: set<Node>, x: int)
    requires nodes == {}
    ensures OpenedOn(s, nodes, x) == s
  {
    assert OpenedOn(s, nodes, x).disks == s.disks;
  }

  lemma OpenedAdds(s: State, n: Node, nodes: set<Node>, x: int)
    ensures OpenedOn(OpenedOn(s, {n}, x), nodes, x) == OpenedOn(s, {n} + nodes, x)
  {
    assert KeysOf({n} + nodes, x) == KeysOf({n}, x) + KeysOf(nodes, x);
    hide KeysOf;
    var a, b := OpenedOn(OpenedOn(s, {n}, x), nodes, x), OpenedOn(s, {n} + nodes, x);
    assert a.disks == b.disks;
    assert a.open == b.open;
  }

  lemma {:induction false} OpenRound(w: World, s: State, x: int, todo: seq<Node>) returns (path: seq<State>)
    requires s.pc == Idle && x in s.meta.shards && NoDup(todo) && forall n :: n in todo ==> n in s.meta.shards[x].replicas
    requires s.meta.shards[x].term == 1 && s.meta.shards[x].placementEpoch == 1
    requires forall n :: n in todo ==> (n, x) !in s.disks && (n, x) !in s.open
    ensures Reaches(w, path, s, OpenedOn(s, Elems(todo), x))
    decreases |todo|
  {
    if todo == [] {
      NoneOpened(s, Elems(todo), x);
      Stay(w, s);
      path := [s];
    } else {
      FirstNode(todo);
      var n, rest := todo[0], todo[1..];
      var t := OpenedOn(s, {n}, x);
      forall m | m in rest ensures m != n && (m, x) !in t.disks && (m, x) !in t.open { assert m in Elems(rest) && m in todo; }
      hide Reaches, OpenedOn;
      var a := OpenCall(w, s, x, n);
      assert t.pc == Idle && t.meta == s.meta by { OpenedFrame(s, {n}, x); }
      var b := OpenRound(w, t, x, rest);
      OpenedAdds(s, n, Elems(rest), x);
      path := Join(w, a, b, s, t, OpenedOn(s, Elems(todo), x));
    }
  }

  /** Every replica of a shard of a fresh cluster is configured. */
  lemma Open(w: World, s: State, nodes: seq<Node>, x: int) returns (path: seq<State>, t: State)
    requires Init(w, s, nodes) && x in s.meta.shards
    ensures Reaches(w, path, s, t) && Ready(t, x, s.meta.shards[x]) && t.meta == s.meta && t.acks == {} && t.issued == map[]
    ensures forall n :: n in s.meta.shards[x].replicas ==> (n, x) in t.disks && t.disks[(n, x)] == Opened
    ensures forall k :: k in t.disks ==> k.1 == x && k.0 in s.meta.shards[x].replicas
    ensures forall k :: k in t.open ==> k.1 == x && k.0 in s.meta.shards[x].replicas
  {
    var p := s.meta.shards[x];
    assert p == InitialPlacement(x, nodes, s.meta.replicationFactor);
    assert NoDup(p.replicas) by { ClusterReconfiguration.InitialReplicasDiffer(s, nodes, x, w); }
    t := OpenedOn(s, Elems(p.replicas), x);
    hide Init, Reaches;
    path := OpenRound(w, s, x, p.replicas);
    forall n | n in p.replicas ensures Current(t, n, x, p) && t.disks[(n, x)] == Opened {}
  }
}
