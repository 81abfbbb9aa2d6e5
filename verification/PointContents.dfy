/** What a replica holds for one point: over every run it is decided by the mutations of that point on
    the replica's list, from its last delete on. */
module PointContents {
  import opened Basics
  import opened Protocol
  import opened Replicas
  import opened Cluster
  import opened CollectionHistory
  import opened AcknowledgedWrites

  /** The mutations that the agreed log holds at a list of indices. */
  ghost function Mutations(issued: Issues, shard: int, indices: seq<int>): (ms: seq<Mutation>)
    requires forall k :: 0 <= k < |indices| ==> (shard, indices[k]) in issued
    ensures |ms| == |indices| && forall k :: 0 <= k < |ms| ==> ms[k] == issued[(shard, indices[k])].1
  {
    seq(|indices|, k requires 0 <= k < |indices| => issued[(shard, indices[k])].1)
  }

  /** The last mutation of the point. */
  ghost predicate LastOf(ms: seq<Mutation>, id: int, k: int) {
    0 <= k < |ms| && ms[k].id == id && forall j :: k < j < |ms| ==> ms[j].id != id
  }

  /** The upsert that gave the point its sparse list: the last one with a non-empty list, and not
      followed by a delete. */
  ghost predicate SparseFrom(ms: seq<Mutation>, id: int, k: int) {
    && 0 <= k < |ms| && ms[k].id == id && ms[k].Upsert? && ms[k].sparse != []
    && forall j :: k < j < |ms| && ms[j].id == id ==> ms[j].Upsert? && ms[j].sparse == []
  }

  /** The point is present exactly when its last mutation is an upsert; it has that upsert's vector and
      payload, and the sparse list of the last upsert since its last delete that carried one. */
  ghost predicate Decided(c: Collection, ms: seq<Mutation>, id: int) {
    && (id in c <==> exists k :: LastOf(ms, id, k) && ms[k].Upsert?)
    && (forall k :: LastOf(ms, id, k) && id in c && ms[k].Upsert? ==> c[id].vector == ms[k].vector && c[id].fields == ms[k].fields)
    && (forall k :: SparseFrom(ms, id, k) && id in c ==> c[id].sparse == ms[k].sparse)
    && (id in c && (forall k :: !SparseFrom(ms, id, k)) ==> c[id].sparse == [])
  }

  lemma LastOfMore(ms: seq<Mutation>, m: Mutation, id: int)
    ensures m.id == id ==> forall k :: LastOf(ms + [m], id, k) <==> k == |ms|
    ensures m.id != id ==> forall k :: LastOf(ms + [m], id, k) <==> LastOf(ms, id, k)
  {
    var more := ms + [m];
    assert more[|ms|] == m;
    forall k ensures LastOf(more, id, k) <==> if m.id == id then k == |ms| else LastOf(ms, id, k) {
      if LastOf(more, id, k) && 0 <= k < |ms| { assert forall j :: k < j < |ms| ==> more[j] == ms[j]; }
    }
  }

  lemma SparseFromMore(ms: seq<Mutation>, m: Mutation, id: int)
    ensures m.id != id || (m.Upsert? && m.sparse == []) ==> forall k :: SparseFrom(ms + [m], id, k) <==> SparseFrom(ms, id, k)
    ensures m.id == id && m.Upsert? && m.sparse != [] ==> forall k :: SparseFrom(ms + [m], id, k) <==> k == |ms|
    ensures m.id == id && m.Delete? ==> forall k :: !SparseFrom(ms + [m], id, k)
  {
    var more := ms + [m];
    assert more[|ms|] == m;
    assert forall j :: 0 <= j < |ms| ==> more[j] == ms[j];
  }

  lemma DecidedMore(c: Collection, ms: seq<Mutation>, m: Mutation, d: Collection, id: int)
    requires Decided(c, ms, id) && Applied(c, m, d)
    ensures Decided(d, ms + [m], id)
  {
    LastOfMore(ms, m, id);
    SparseFromMore(ms, m, id);
    InRange(ms, id);
    hide LastOf, SparseFrom;
    var more := ms + [m];
    assert more[|ms|] == m && forall k :: 0 <= k < |ms| ==> more[k] == ms[k];
    if m.id != id {
      if id in c {
        var k :| LastOf(ms, id, k) && ms[k].Upsert?;
        assert LastOf(more, id, k) && more[k].Upsert?;
      }
    } else if m.Upsert? {
      assert LastOf(more, id, |ms|) && more[|ms|].Upsert?;
      if m.sparse != [] {
        assert SparseFrom(more, id, |ms|);
      } else if id in c {
        assert (forall k :: !SparseFrom(more, id, k)) ==> forall k :: !SparseFrom(ms, id, k);
      } else {
        NoSparse(ms, id);
      }
    }
  }

  lemma InRange(ms: seq<Mutation>, id: int)
    ensures forall k :: LastOf(ms, id, k) || SparseFrom(ms, id, k) ==> 0 <= k < |ms|
  {
  }

  /** A point whose last mutation is no upsert has no sparse list to keep. */
  lemma NoSparse(ms: seq<Mutation>, id: int)
    requires forall k :: LastOf(ms, id, k) ==> !ms[k].Upsert?
    ensures forall k :: !SparseFrom(ms, id, k)
  {
    forall k | SparseFrom(ms, id, k) ensures false {
      var l := LastFrom(ms, id, k);
    }
  }

  lemma {:induction false} LastFrom(ms: seq<Mutation>, id: int, k: int) returns (l: int)
    requires 0 <= k < |ms| && ms[k].id == id
    ensures k <= l && LastOf(ms, id, l)
    decreases |ms| - k
  {
    if j :| k < j < |ms| && ms[j].id == id {
      l := LastFrom(ms, id, j);
    } else {
      l := k;
    }
  }

  lemma {:induction false} FoldDecides(issued: Issues, shard: int, indices: seq<int>, id: int)
    requires forall k :: 0 <= k < |indices| ==> (shard, indices[k]) in issued
    ensures Decided(Fold(issued, shard, indices), Mutations(issued, shard, indices), id)
  {
    if indices != [] {
      var front, i := indices[..|indices| - 1], indices[|indices| - 1];
      var c, m := Fold(issued, shard, front), issued[(shard, i)].1;
      FoldDecides(issued, shard, front, id);
      ApplyApplies(c, m);
      assert Mutations(issued, shard, indices) == Mutations(issued, shard, front) + [m];
      hide Decided, Applied, Apply;
      DecidedMore(c, Mutations(issued, shard, front), m, Apply(c, m), id);
    }
  }

  /** In every reachable state, whatever happened before: a replica, as it is if open and as it recovers
      if not, holds for a point what the listed mutations of that point decide. */
  lemma PointIsDecided(w: World, run: seq<State>, i: nat, n: Node, shard: int, id: int)
    requires CollisionFree(w) && Run(w, run) && i < |run| && shard in run[i].meta.shards
    ensures forall k :: 0 <= k < |View(run[i], n, shard).Applied()| ==> (shard, View(run[i], n, shard).Applied()[k]) in run[i].issued
    ensures var r := View(run[i], n, shard); Decided(r.collection, Mutations(run[i].issued, shard, r.Applied()), id)
  {
    CollectionsFollowTheLog(w, run, i, n, shard);
    var r := View(run[i], n, shard);
    assert forall k :: 0 <= k < |r.Applied()| ==> Bound(run[i], shard, r.Applied()[k]);
    hide Run, Decided, Reopen;
    FoldDecides(run[i].issued, shard, r.Applied(), id);
  }
}
