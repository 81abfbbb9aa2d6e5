/** Elections, catch-up, added replicas, crashes and restarts keep the invariant. */
module ClusterReconfiguration {
  import opened Basics
  import opened Protocol
  import opened Replicas
  import opened Cluster
  import opened ClusterInvariant
  import opened ClusterSteps

  // ---------------------------------------------------------------- elections

  lemma BeginElectionKeeps(w: World, s: State, shard: int)
    requires Inv(w, s) && shard in s.meta.shards
    ensures Inv(w, s.(pc := Electing(shard, s.meta.shards[shard].replicas, map[])))
  {
    hide Core;
    PcChangeKeepsCore(w, s, s.(pc := Electing(shard, s.meta.shards[shard].replicas, map[])));
  }

  lemma StatusRpcKeeps(w: World, s: State, answered: bool)
    requires Inv(w, s) && s.pc.Electing? && s.pc.todo != []
    ensures Inv(w, NextStatusRpc(s, answered))
  {
    hide Core;
    PcChangeKeepsCore(w, s, NextStatusRpc(s, answered));
  }

  /** `Best` is a candidate, and no candidate comes before it in the election order. */
  lemma {:induction false} BestIsFirst(nodes: seq<Node>, c: map<Node, int>)
    ensures Best(nodes, c).None? <==> forall i :: 0 <= i < |nodes| ==> nodes[i] !in c
    ensures Best(nodes, c).Some? ==>
      var b := Best(nodes, c).value;
      && b in nodes && b in c
      && forall i :: 0 <= i < |nodes| && nodes[i] in c ==>
        c[nodes[i]] <= c[b] && (c[nodes[i]] == c[b] ==> !Less(nodes[i], b))
  {
    if nodes != [] {
      BestIsFirst(nodes[1..], c);
      var rest := Best(nodes[1..], c);
      var b := Best(nodes, c);
      if b == Some(nodes[0]) {
        LessIrreflexive(nodes[0]);
        forall i | 1 <= i < |nodes| && nodes[i] in c
          ensures c[nodes[i]] <= c[nodes[0]] && (c[nodes[i]] == c[nodes[0]] ==> !Less(nodes[i], nodes[0]))
        {
          assert nodes[1..][i - 1] == nodes[i];
          if rest.Some? && rest.value != nodes[0] && c[nodes[i]] == c[nodes[0]] && Less(nodes[i], nodes[0]) {
            LessTransitive(nodes[i], nodes[0], rest.value);
          }
        }
      } else {
        forall i | 1 <= i < |nodes| && nodes[i] in c
          ensures rest.Some? && c[nodes[i]] <= c[rest.value] && (c[nodes[i]] == c[rest.value] ==> !Less(nodes[i], rest.value))
        {
          assert nodes[1..][i - 1] == nodes[i];
        }
      }
    }
  }

  /** A quorum of candidates meets the caught-up majority, so the winner is caught up. */
  lemma ElectedLeaderIsCaughtUp(w: World, s: State)
    requires Inv(w, s) && s.pc.Electing? && s.pc.todo == []
    requires |s.pc.candidates| >= s.meta.shards[s.pc.shard].Quorum()
    ensures var p := s.meta.shards[s.pc.shard];
      var best := Best(p.replicas, s.pc.candidates);
      && best.Some? && best.value in p.replicas
      && At(s, best.value, s.pc.shard).appliedIndex >= p.committedIndex
  {
    var shard, c := s.pc.shard, s.pc.candidates;
    var p := s.meta.shards[shard];
    PlacementOf(w, s, shard);
    DistinctCardinality(p.replicas);
    var x := MajoritiesMeet(Elems(p.replicas), c.Keys, CaughtUp(s, shard));
    BestIsFirst(p.replicas, c);
    var i :| 0 <= i < |p.replicas| && p.replicas[i] == x;
  }

  lemma NewLeaderKeeps(w: World, s: State, t: State, shard: int, leader: Node)
    requires Core(w, s) && shard in s.meta.shards && leader in s.meta.shards[shard].replicas
    requires var p := s.meta.shards[shard];
      t == s.(meta := Publish(s.meta, p.(term := p.term + 1, placementEpoch := p.placementEpoch + 1, leader := leader)), pc := Idle)
    ensures Inv(w, t)
  {
    hide Validate, IssuedOk, TableOk, AcksOk, DisksOk, MajorityCaughtUp, JournalOk;
    PlacementOf(w, s, shard);
    PublishKeepsValid(w.kernel, s.meta, t.meta.shards[shard]);
    IssuedFrame(w, s, t);
    TableFrame(w, s, t);
    AcksKept(s, t);
    MetadataStepKeepsDisks(s, t);
    SameQuorumsKeepMajority(s, t);
  }

  lemma EndElectionKeeps(w: World, s: State)
    requires Inv(w, s) && s.pc.Electing? && s.pc.todo == []
    ensures Inv(w, NextEndElection(s))
  {
    hide Core, Best;
    var p := s.meta.shards[s.pc.shard];
    var t := NextEndElection(s);
    if |s.pc.candidates| < p.Quorum() {
      AbortKeeps(w, s);
    } else {
      ElectedLeaderIsCaughtUp(w, s);
      PlacementOf(w, s, s.pc.shard);
      NewLeaderKeeps(w, s, t, s.pc.shard, Best(p.replicas, s.pc.candidates).value);
    }
  }

  // ---------------------------------------------------------------- configuration and copying

  lemma ConfigureRpcKeeps(w: World, s: State, shard: int, n: Node, out: Outcome)
    requires Inv(w, s) && s.pc.Idle? && shard in s.meta.shards && n in s.meta.shards[shard].replicas
    ensures var p := s.meta.shards[shard];
      Inv(w, AfterRpc(s, n, shard, Configure(p.term, p.placementEpoch), out))
  {
    hide Core;
    RpcKeepsCore(w, s, n, shard, Configure(s.meta.shards[shard].term, s.meta.shards[shard].placementEpoch), out);
    hide AfterRpc;
  }

  /** Entries read from a journal's committed part are registered, whatever their new stamp. */
  lemma TailIsRegistered(w: World, s: State, source: Node, shard: int, after: int, epoch: int)
    requires Core(w, s) && shard in s.meta.shards
    ensures var p := s.meta.shards[shard];
      forall k :: 0 <= k < |Restamp(Tail(s, source, shard, after), p.shardId, p.term, epoch)| ==>
        Registered(s, shard, Restamp(Tail(s, source, shard, after), p.shardId, p.term, epoch)[k])
  {
    hide Validate, IssuedOk, TableOk, AcksOk, MajorityCaughtUp;
    PlacementOf(w, s, shard);
    FreshOk(s, source, shard);
    var tail := Tail(s, source, shard, after);
    var j := At(s, source, shard).journal;
    forall k | 0 <= k < |tail| ensures Registered(s, shard, Restamp(tail, s.meta.shards[shard].shardId, s.meta.shards[shard].term, epoch)[k]) {
      assert Registered(s, shard, j.prepared[tail[k].index]);
    }
  }

  lemma BeginCatchUpKeeps(w: World, s: State, shard: int, node: Node, source: Node)
    requires Inv(w, s) && shard in s.meta.shards
    ensures Inv(w, NextBeginCatchUp(s, shard, node, source))
  {
    hide Core;
    var t := NextBeginCatchUp(s, shard, node, source);
    TailIsRegistered(w, s, source, shard, At(s, node, shard).appliedIndex, s.meta.shards[shard].placementEpoch);
    PcChangeKeepsCore(w, s, t);
  }

  lemma CopyRpcKeeps(w: World, s: State, out: Outcome)
    requires Inv(w, s) && s.pc.Copying? && s.pc.entries != []
    ensures Inv(w, NextCopyRpc(s, out))
  {
    hide Core;
    var op := if s.pc.prepared then Commit(s.pc.entries[0]) else Prepare(s.pc.entries[0]);
    RpcKeepsCore(w, s, s.pc.node, s.pc.shard, op, out);
    hide AfterRpc, Answers;
    PcChangeKeepsCore(w, AfterRpc(s, s.pc.node, s.pc.shard, op, out), NextCopyRpc(s, out));
  }

  // ---------------------------------------------------------------- added replicas

  lemma BeginRebalanceKeeps(w: World, s: State, shard: int, node: Node, source: Node)
    requires Inv(w, s) && Growing(s, shard, node) && CaughtUpSource(s, shard, source)
    ensures var r := At(s, source, shard);
      Inv(w, s.(pc := Exported(shard, node, source, r.collection, r.appliedIndex, r.Applied(), false)))
  {
    hide Core;
    var r := At(s, source, shard);
    PcChangeKeepsCore(w, s, s.(pc := Exported(shard, node, source, r.collection, r.appliedIndex, r.Applied(), false)));
  }

  lemma RebalanceConfigureKeeps(w: World, s: State, out: Outcome)
    requires Inv(w, s) && s.pc.Exported?
    ensures Inv(w, NextRebalanceConfigure(s, out))
  {
    hide Core;
    var p := s.meta.shards[s.pc.shard];
    var op := Configure(p.term, p.placementEpoch + 1);
    RpcKeepsCore(w, s, s.pc.node, s.pc.shard, op, out);
    hide AfterRpc, Answers;
    PcChangeKeepsCore(w, AfterRpc(s, s.pc.node, s.pc.shard, op, out), NextRebalanceConfigure(s, out));
  }

  lemma InstallRpcKeeps(w: World, s: State, out: Outcome)
    requires Inv(w, s) && s.pc.Exported?
    ensures Inv(w, NextInstallRpc(s, out))
  {
    hide Core;
    var p := s.meta.shards[s.pc.shard];
    var op := Install(s.pc.rows, s.pc.index, p.term, p.placementEpoch + 1, s.pc.applied);
    RpcKeepsCore(w, s, s.pc.node, s.pc.shard, op, out);
    if Answers(s, s.pc.node, s.pc.shard, op, out) { AnsweredProgress(s, s.pc.node, s.pc.shard, op, out); }
    hide AfterRpc, Answers;
    PcChangeKeepsCore(w, AfterRpc(s, s.pc.node, s.pc.shard, op, out), NextInstallRpc(s, out));
  }

  lemma FetchTailKeeps(w: World, s: State)
    requires Inv(w, s) && s.pc.Installed?
    ensures Inv(w, NextFetchTail(s))
  {
    hide Core, Tail;
    var shard := s.pc.shard;
    TailIsRegistered(w, s, s.pc.source, shard, s.pc.index, s.meta.shards[shard].placementEpoch + 1);
    PcChangeKeepsCore(w, s, NextFetchTail(s));
  }

  lemma EndCopyKeeps(w: World, s: State)
    requires Inv(w, s) && s.pc.Copying? && s.pc.entries == []
    ensures Inv(w, NextEndCopy(s))
  {
    hide Core;
    if !s.pc.growing {
      PcChangeKeepsCore(w, s, NextEndCopy(s));
    } else {
      GrowKeeps(w, s, NextEndCopy(s), s.pc.shard, s.pc.node);
    }
  }

  lemma GrowKeeps(w: World, s: State, t: State, shard: int, n: Node)
    requires Core(w, s) && Growing(s, shard, n) && At(s, n, shard).appliedIndex >= s.meta.shards[shard].committedIndex
    requires var p := s.meta.shards[shard];
      t == s.(meta := Publish(s.meta, p.(replicas := p.replicas + [n], placementEpoch := p.placementEpoch + 1)), pc := t.pc)
    ensures Core(w, t)
  {
    hide Validate, IssuedOk, TableOk, AcksOk, DisksOk, MajorityCaughtUp;
    PlacementOf(w, s, shard);
    PublishKeepsValid(w.kernel, s.meta, t.meta.shards[shard]);
    IssuedFrame(w, s, t);
    TableFrame(w, s, t);
    AcksKept(s, t);
    MetadataStepKeepsDisks(s, t);
    AddedReplicaKeepsMajority(s, t, shard, n);
  }

  /** The added replica is caught up, so it adds one to both the majority and its target. */
  lemma AddedReplicaKeepsMajority(s: State, t: State, shard: int, n: Node)
    requires MajorityCaughtUp(s) && t.disks == s.disks && shard in s.meta.shards && n !in s.meta.shards[shard].replicas
    requires At(s, n, shard).appliedIndex >= s.meta.shards[shard].committedIndex
    requires t.meta.shards.Keys == s.meta.shards.Keys
    requires forall i :: i in s.meta.shards && i != shard ==> t.meta.shards[i] == s.meta.shards[i]
    requires t.meta.shards[shard].replicas == s.meta.shards[shard].replicas + [n]
    requires t.meta.shards[shard].committedIndex == s.meta.shards[shard].committedIndex
    ensures MajorityCaughtUp(t)
  {
    forall i | i in t.meta.shards ensures |CaughtUp(t, i)| >= t.meta.shards[i].Quorum() {
      if i == shard {
        assert CaughtUp(t, i) == CaughtUp(s, i) + {n};
      } else {
        SameQuorumKeepsMajority(s, t, i);
      }
    }
  }

  // ---------------------------------------------------------------- crashes and restarts

  lemma AbortKeeps(w: World, s: State)
    requires Inv(w, s)
    ensures Inv(w, s.(pc := Idle))
  {
    hide Core;
    PcChangeKeepsCore(w, s, s.(pc := Idle));
  }

  /** Which processes have a shard open plays no part in the invariant. */
  lemma OpenChangeKeeps(w: World, s: State, t: State)
    requires Inv(w, s) && t == s.(open := t.open)
    ensures Inv(w, t)
  {
    hide Core;
    CoreFrame(w, s, t);
  }

  lemma MembersKeepValid(kernel: Kernel, m: Metadata, members: map<Node, Address>)
    requires Validate(kernel, m) && members.Keys == m.members.Keys
    requires forall n :: n in members ==> ValidAddress(members[n])
    ensures Validate(kernel, m.(members := members, epoch := m.epoch + 1))
  {
    assert |members.Keys| == |members| && |m.members.Keys| == |m.members|;
    var m' := m.(members := members, epoch := m.epoch + 1);
    forall i | i in m'.shards ensures ValidPlacement(i, m'.shards[i], m'.members.Keys) {
      assert ValidPlacement(i, m.shards[i], m.members.Keys);
    }
  }

  lemma RestartKeeps(w: World, s: State, t: State)
    requires Inv(w, s)
    requires t.meta == s.meta.(members := t.meta.members, epoch := s.meta.epoch + 1)
    requires t == s.(meta := t.meta, open := t.open, pc := Idle)
    requires t.meta.members.Keys == s.meta.members.Keys
    requires forall n :: n in t.meta.members ==> ValidAddress(t.meta.members[n])
    ensures Inv(w, t)
  {
    hide Validate, IssuedOk, TableOk, AcksOk, DisksOk, MajorityCaughtUp;
    MembersKeepValid(w.kernel, s.meta, t.meta.members);
    IssuedFrame(w, s, t);
    TableFrame(w, s, t);
    AcksKept(s, t);
    MetadataStepKeepsDisks(s, t);
    SameQuorumsKeepMajority(s, t);
  }

  lemma RestartNodeKeeps(w: World, s: State, node: Node, address: Address)
    requires Inv(w, s) && s.pc.Idle? && node in s.meta.members && ValidAddress(address)
    ensures Inv(w, Crash(s, node).(meta := s.meta.(members := s.meta.members[node := address], epoch := s.meta.epoch + 1)))
  {
    var t := Crash(s, node).(meta := s.meta.(members := s.meta.members[node := address], epoch := s.meta.epoch + 1));
    assert t.meta.members.Keys == s.meta.members.Keys;
    assert forall n :: n in t.meta.members ==> ValidAddress(t.meta.members[n]);
    hide Core;
    RestartKeeps(w, s, t);
  }

  // ---------------------------------------------------------------- fresh start

  /** Modular placement never repeats a node, since it spans at most one lap of the ring. */
  lemma InitialPlacementIsValid(shard: int, nodes: seq<Node>, factor: int)
    requires shard >= 0 && 0 < factor <= |nodes| && NoDup(nodes)
    ensures ValidPlacement(shard, InitialPlacement(shard, nodes, factor), Elems(nodes))
  {
    var p := InitialPlacement(shard, nodes, factor);
    forall i, j | 0 <= i < j < |p.replicas| ensures p.replicas[i] != p.replicas[j] {
      RingPositionsDiffer(shard + i, shard + j, |nodes|);
    }
  }

  /** Shards go round the sorted nodes: the first ones are led by the nodes in turn, the next shard's
      replicas start one node further, and after the last node it begins again. */
  lemma ShardsGoRound(shard: int, nodes: seq<Node>, factor: int)
    requires shard >= 0 && 0 < factor <= |nodes|
    ensures var p := InitialPlacement(shard, nodes, factor);
      && |p.replicas| == factor && p.leader == p.replicas[0] && p.term == p.placementEpoch == 1
      && (shard < |nodes| ==> p.leader == nodes[shard])
      && (forall i :: 0 < i < factor ==> InitialPlacement(shard + 1, nodes, factor).replicas[i - 1] == p.replicas[i])
      && InitialPlacement(shard + |nodes|, nodes, factor).replicas == p.replicas
  {
    var n, p, next, again := |nodes|, InitialPlacement(shard, nodes, factor), InitialPlacement(shard + 1, nodes, factor),
      InitialPlacement(shard + |nodes|, nodes, factor);
    forall i | 0 <= i < factor ensures again.replicas[i] == p.replicas[i] {
      OnceRound(shard + i, n);
      assert shard + n + i == shard + i + n;
    }
    forall i | 0 < i < factor ensures next.replicas[i - 1] == p.replicas[i] { assert shard + 1 + (i - 1) == shard + i; }
    assert again.replicas == p.replicas;
    if shard < n { SameRest(shard, n, 0, shard); }
  }

  lemma OnceRound(a: int, n: int)
    requires a >= 0 && n > 0
    ensures (a + n) % n == a % n
  {
    var q, r := a / n, a % n;
    assert a == n * q + r;
    assert a + n == n * (q + 1) + r;
    SameRest(a + n, n, q + 1, r);
  }

  lemma SameRest(a: int, n: int, q: int, r: int)
    requires n > 0 && 0 <= r < n && a == n * q + r
    ensures a % n == r
  {
    var p := a / n;
    assert a == n * p + a % n;
    if p < q { MultiplesOrdered(n, p + 1, q); }
    if q < p { MultiplesOrdered(n, q + 1, p); }
  }

  lemma RingPositionsDiffer(a: int, b: int, n: int)
    requires 0 <= a < b < a + n
    ensures a % n != b % n
  {
    var qa, qb := a / n, b / n;
    assert a == n * qa + a % n && b == n * qb + b % n;
    if qb <= qa {
      MultiplesOrdered(n, qb, qa);
    } else {
      MultiplesOrdered(n, qa + 1, qb);
    }
  }

  lemma MultiplesOrdered(n: int, x: int, y: int)
    requires n >= 0 && x <= y
    ensures n * x <= n * y
    ensures n * (x - 1) + n == n * x
  {
  }

  lemma InitKeeps(w: World, s: State, nodes: seq<Node>)
    requires Init(w, s, nodes)
    ensures Inv(w, s)
  {
    NodesDiffer(s, nodes, w);
    DistinctCardinality(nodes);
    assert |s.meta.members.Keys| == |s.meta.members|;
    hide SortedNodes, CanonicalConfig, ValidAddress, ValidPlacement;
    forall i | i in s.meta.shards
      ensures ValidPlacement(i, s.meta.shards[i], s.meta.members.Keys) && |CaughtUp(s, i)| >= s.meta.shards[i].Quorum()
    {
      InitialPlacementIsValid(i, nodes, s.meta.replicationFactor);
      InitialMajority(s, i);
    }
  }

  lemma NodesDiffer(s: State, nodes: seq<Node>, w: World)
    requires Init(w, s, nodes)
    ensures NoDup(nodes)
  {
    forall i, j | 0 <= i < j < |nodes| ensures nodes[i] != nodes[j] { LessIrreflexive(nodes[i]); }
  }

  lemma InitialReplicasDiffer(s: State, nodes: seq<Node>, x: int, w: World)
    requires Init(w, s, nodes) && x in s.meta.shards
    ensures NoDup(s.meta.shards[x].replicas) && s.meta.shards[x].leader in s.meta.shards[x].replicas
    ensures |s.meta.shards[x].replicas| == s.meta.replicationFactor
  {
    NodesDiffer(s, nodes, w);
    InitialPlacementIsValid(x, nodes, s.meta.replicationFactor);
  }

  lemma InitialMajority(s: State, i: int)
    requires i in s.meta.shards && ValidPlacement(i, s.meta.shards[i], s.meta.members.Keys)
    requires s.disks == map[] && s.meta.shards[i].committedIndex == 0
    ensures |CaughtUp(s, i)| >= s.meta.shards[i].Quorum()
  {
    assert CaughtUp(s, i) == Elems(s.meta.shards[i].replicas);
    DistinctCardinality(s.meta.shards[i].replicas);
  }

  /** Whatever arguments the constructor accepts, there is a fresh cluster. */
  lemma FreshClusterExists(w: World, id: string, dimension: int, shardCount: int, factor: int, nodes: seq<Node>,
                           members: map<Node, Address>, config: map<string, Json>) returns (s: State)
    requires id != "" && dimension > 0 && shardCount > 0 && 0 < factor <= |nodes|
    requires SortedNodes(nodes) && Elems(nodes) == members.Keys && CanonicalConfig(w.kernel, config, dimension)
    requires forall n :: n in members ==> n != "" && ValidAddress(members[n])
    ensures Init(w, s, nodes) && Inv(w, s)
    ensures s.meta.members == members && s.meta.shardCount == shardCount && s.meta.replicationFactor == factor
  {
    var shards := map i | 0 <= i < shardCount :: InitialPlacement(i, nodes, factor);
    var m := Metadata(id, dimension, shardCount, factor, 1, members, shards, config, map[], ROUTING_VERSION);
    s := State(m, map[], {}, Idle, map[], {});
    hide CanonicalConfig, SortedNodes;
    assert Init(w, s, nodes);
    hide Init, Inv;
    InitKeeps(w, s, nodes);
  }
}
