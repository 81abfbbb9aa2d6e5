/** Hybrid search: reciprocal-rank fusion of the dense and the sparse ranking, with real-valued
    scores. The score dictionary is a sequence of distinct IDs in insertion order. */
module Hybrid {
  import opened Basics
  import opened Merge

  datatype Fusion = Ranked(hits: seq<Hit>) | MissingQuery | DivisionByZero

  /** Some rank 1..n makes `rank_constant + rank` zero. */
  predicate HitsZero(c: int, n: nat) { 1 <= -c <= n }

  function Min(a: nat, b: nat): nat { if a < b then a else b }

  predicate HasId(s: seq<Hit>, id: int) { exists i :: 0 <= i < |s| && s[i].id == id }

  // ---------------------------------------------------------------- the specification

  /** How many points rank before `h`. */
  function CountAhead(smaller: bool, points: seq<Hit>, h: Hit): nat {
    if points == [] then 0
    else (if Ahead(smaller, points[0], h) then 1 else 0) + CountAhead(smaller, points[1..], h)
  }

  /** The point's rank on a single node, counted from 1; 0 when no point has the ID. */
  ghost function Rank(smaller: bool, points: seq<Hit>, id: int): nat {
    if HasId(points, id) then
      var i :| 0 <= i < |points| && points[i].id == id;
      CountAhead(smaller, points, points[i]) + 1
    else 0
  }

  ghost predicate Fetched(smaller: bool, points: seq<Hit>, fetchK: nat, id: int) {
    1 <= Rank(smaller, points, id) <= Min(fetchK, |points|)
  }

  ghost function Share(smaller: bool, points: seq<Hit>, fetchK: nat, c: int, id: int): real
    requires !HitsZero(c, Min(fetchK, |points|))
  {
    if Fetched(smaller, points, fetchK, id) then 1.0 / (c + Rank(smaller, points, id)) as real else 0.0
  }

  ghost predicate Raises(dense: seq<Hit>, sparse: seq<Hit>, fetchK: nat, c: int) {
    HitsZero(c, Min(fetchK, |dense|)) || HitsZero(c, Min(fetchK, |sparse|))
  }

  /** The fused ranking, said without shards: exactly the IDs that either ranking fetches, each
      with the sum of its two shares, best first with ascending-ID ties. */
  ghost predicate Fused(dense: seq<Hit>, sparse: seq<Hit>, metric: string, fetchK: nat, c: int, full: seq<Hit>)
    requires !Raises(dense, sparse, fetchK, c)
  {
    var smaller := SmallerIsBetter(metric, "exact");
    && Sorted(false, full)
    && DistinctIds(full)
    && (forall id :: HasId(full, id) <==> Fetched(smaller, dense, fetchK, id) || Fetched(false, sparse, fetchK, id))
    && (forall i :: 0 <= i < |full| ==>
          full[i].score == Share(smaller, dense, fetchK, c, full[i].id) + Share(false, sparse, fetchK, c, full[i].id))
  }

  // ---------------------------------------------------------------- counting and sorting

  lemma {:induction false} CountSplit(smaller: bool, a: seq<Hit>, b: seq<Hit>, h: Hit)
    ensures CountAhead(smaller, a + b, h) == CountAhead(smaller, a, h) + CountAhead(smaller, b, h)
  {
    if a == [] {
      assert a + b == b;
    } else {
      assert (a + b)[1..] == a[1..] + b;
      CountSplit(smaller, a[1..], b, h);
    }
  }

  lemma {:induction false} CountIgnoresOrder(smaller: bool, a: seq<Hit>, b: seq<Hit>, h: Hit)
    requires multiset(a) == multiset(b)
    ensures CountAhead(smaller, a, h) == CountAhead(smaller, b, h)
    decreases |a|
  {
    if a == [] {
      assert |multiset(b)| == 0;
    } else {
      assert a[0] in multiset(b);
      var i :| 0 <= i < |b| && b[i] == a[0];
      var rest := b[..i] + b[i + 1..];
      assert b == b[..i] + ([b[i]] + b[i + 1..]);
      assert a == [a[0]] + a[1..];
      assert multiset(rest) == multiset(b) - multiset{b[i]};
      CountIgnoresOrder(smaller, a[1..], rest, h);
      CountSplit(smaller, b[..i], [b[i]] + b[i + 1..], h);
      CountSplit(smaller, b[..i], b[i + 1..], h);
    }
  }

  lemma {:induction false} CountAll(smaller: bool, s: seq<Hit>, h: Hit)
    ensures (forall i :: 0 <= i < |s| ==> Ahead(smaller, s[i], h)) ==> CountAhead(smaller, s, h) == |s|
    ensures (forall i :: 0 <= i < |s| ==> !Ahead(smaller, s[i], h)) ==> CountAhead(smaller, s, h) == 0
  {
    if s != [] { CountAll(smaller, s[1..], h); }
  }

  lemma SortedPosition(smaller: bool, s: seq<Hit>, p: nat)
    requires Sorted(smaller, s) && DistinctIds(s) && p < |s|
    ensures CountAhead(smaller, s, s[p]) == p
  {
    hide CountAhead;
    assert s == s[..p] + s[p..];
    CountSplit(smaller, s[..p], s[p..], s[p]);
    CountAll(smaller, s[..p], s[p]);
    CountAll(smaller, s[p..], s[p]);
  }

  /** The number of points ahead of a point is its position in the sorted list. */
  lemma PositionIsCount(smaller: bool, points: seq<Hit>, s: seq<Hit>, p: nat)
    requires multiset(points) == multiset(s) && Sorted(smaller, s)
    requires DistinctIds(points) && p < |s|
    ensures Rank(smaller, points, s[p].id) == p + 1
  {
    hide CountAhead, Sorted;
    PermutationKeepsDistinct(points, s);
    CountIgnoresOrder(smaller, points, s, s[p]);
    SortedPosition(smaller, s, p);
    assert s[p] in multiset(points);
    var i :| 0 <= i < |points| && points[i] == s[p];
    assert HasId(points, s[p].id);
  }

  /** Being in the node's Top-K list and being among the first `fetchK` are the same. */
  lemma ListedIsFetched(smaller: bool, points: seq<Hit>, fetchK: nat, id: int)
    requires DistinctIds(points)
    ensures HasId(TopK(smaller, points, fetchK), id) <==> Fetched(smaller, points, fetchK, id)
    ensures forall p :: 0 <= p < |TopK(smaller, points, fetchK)| && TopK(smaller, points, fetchK)[p].id == id
              ==> Rank(smaller, points, id) == p + 1
  {
    hide CountAhead, Sorted, Sort;
    var s, l := Sort(smaller, points), TopK(smaller, points, fetchK);
    SortSorts(smaller, points);
    assert forall p :: 0 <= p < |l| ==> l[p] == s[p];
    SameIds(points, s);
    if HasId(points, id) {
      var p :| 0 <= p < |s| && s[p].id == id;
      PositionIsCount(smaller, points, s, p);
      PermutationKeepsDistinct(points, s);
      assert p < fetchK ==> l[p].id == id;
    }
  }

  // ---------------------------------------------------------------- the score dictionary

  /** `scores.get(id, 0.0)` */
  function Get(scores: seq<Hit>, id: int): real {
    if scores == [] then 0.0 else if scores[0].id == id then scores[0].score else Get(scores[1..], id)
  }

  lemma {:induction false} GetFinds(scores: seq<Hit>, id: int)
    requires DistinctIds(scores)
    ensures forall i :: 0 <= i < |scores| && scores[i].id == id ==> Get(scores, id) == scores[i].score
    ensures !HasId(scores, id) ==> Get(scores, id) == 0.0
  {
    if scores != [] {
      GetFinds(scores[1..], id);
      forall i | 0 <= i < |scores| && scores[i].id == id ensures Get(scores, id) == scores[i].score {
        if i > 0 { assert scores[1..][i - 1] == scores[i]; }
      }
      Shift(scores);
    }
  }

  /** A dictionary store: one key changes, the rest keep their values. */
  lemma {:induction false} PutStores(u: seq<Hit>, h: Hit)
    requires DistinctIds(u)
    ensures DistinctIds(Put(u, h))
    ensures forall id :: HasId(Put(u, h), id) <==> HasId(u, id) || id == h.id
    ensures forall id :: Get(Put(u, h), id) == if id == h.id then h.score else Get(u, id)
  {
    var r := Put(u, h);
    if u == [] {
      assert r[0].id == h.id;
      assert r[1..] == [];
    } else {
      PutStores(u[1..], h);
      var rest := Put(u[1..], h);
      if u[0].id == h.id {
        assert r[1..] == u[1..];
        Shift(u);
        Shift(r);
      } else {
        assert r[1..] == rest;
        Shift(u);
        Shift(r);
        forall i | 0 <= i < |rest| ensures rest[i].id != u[0].id {
          assert HasId(rest, rest[i].id);
          assert rest[i].id == h.id || HasId(u[1..], rest[i].id);
        }
      }
    }
  }

  lemma Shift(u: seq<Hit>)
    requires u != []
    ensures forall id :: HasId(u, id) <==> u[0].id == id || HasId(u[1..], id)
  {
    forall id ensures HasId(u, id) <==> u[0].id == id || HasId(u[1..], id) {
      if HasId(u, id) {
        var i :| 0 <= i < |u| && u[i].id == id;
        if i > 0 { assert u[1..][i - 1].id == id; }
      }
      if HasId(u[1..], id) {
        var i :| 0 <= i < |u[1..]| && u[1..][i].id == id;
        assert u[i + 1].id == id;
      }
    }
  }

  /** What a ranking has added to an ID after its first `n` results. */
  function Added(results: seq<Hit>, n: nat, c: int, id: int): real
    requires n <= |results| && !HitsZero(c, n)
  {
    if n == 0 then 0.0
    else Added(results, n - 1, c, id) + (if results[n - 1].id == id then 1.0 / (c + n) as real else 0.0)
  }

  /** One of the two enumeration loops: each result adds 1 / (c + rank) to its ID's score. */
  method AddRanks(scores: seq<Hit>, results: seq<Hit>, c: int) returns (r: Option<seq<Hit>>)
    requires DistinctIds(scores)
    ensures r.None? <==> HitsZero(c, |results|)
    ensures r.Some? ==> DistinctIds(r.value)
    ensures r.Some? ==> forall id :: HasId(r.value, id) <==> HasId(scores, id) || HasId(results, id)
    ensures r.Some? ==> forall id :: Get(r.value, id) == Get(scores, id) + Added(results, |results|, c, id)
  {
    var d := scores;
    for i := 0 to |results|
      invariant DistinctIds(d) && !HitsZero(c, i)
      invariant forall id :: HasId(d, id) <==> HasId(scores, id) || HasId(results[..i], id)
      invariant forall id :: Get(d, id) == Get(scores, id) + Added(results, i, c, id)
    {
      if c + i + 1 == 0 { return None; }
      var h := Hit(results[i].id, Get(d, results[i].id) + 1.0 / (c + i + 1) as real);
      PutStores(d, h);
      forall id ensures HasId(results[..i + 1], id) <==> HasId(results[..i], id) || id == h.id {
        Grow(results, i, id);
      }
      d := Put(d, h);
    }
    assert results[..|results|] == results;
    return Some(d);
  }

  lemma Grow(results: seq<Hit>, i: nat, id: int)
    requires i < |results|
    ensures HasId(results[..i + 1], id) <==> HasId(results[..i], id) || id == results[i].id
  {
    if HasId(results[..i + 1], id) {
      var j :| 0 <= j < i + 1 && results[..i + 1][j].id == id;
      if j < i { assert results[..i][j].id == id; }
    }
    if HasId(results[..i], id) {
      var j :| 0 <= j < i && results[..i][j].id == id;
      assert results[..i + 1][j].id == id;
    }
    assert results[..i + 1][i].id == results[i].id;
  }

  lemma {:induction false} AddedOnce(results: seq<Hit>, n: nat, c: int, id: int)
    requires n <= |results| && !HitsZero(c, n) && DistinctIds(results)
    ensures forall p :: 0 <= p < n && results[p].id == id ==> Added(results, n, c, id) == 1.0 / (c + p + 1) as real
    ensures (forall p :: 0 <= p < n ==> results[p].id != id) ==> Added(results, n, c, id) == 0.0
  {
    if n > 0 { AddedOnce(results, n - 1, c, id); }
  }

  /** A single node's list adds exactly the point's share. */
  lemma AddedIsShare(smaller: bool, points: seq<Hit>, fetchK: nat, c: int, id: int)
    requires DistinctIds(points) && !HitsZero(c, Min(fetchK, |points|))
    ensures var l := TopK(smaller, points, fetchK); |l| == Min(fetchK, |points|) && Added(l, |l|, c, id) == Share(smaller, points, fetchK, c, id)
  {
    hide Rank, CountAhead;
    var l := TopK(smaller, points, fetchK);
    TopKMembers(smaller, points, fetchK);
    ListedIsFetched(smaller, points, fetchK, id);
    AddedOnce(l, |l|, c, id);
    if HasId(l, id) {
      var p :| 0 <= p < |l| && l[p].id == id;
    }
  }

  // ---------------------------------------------------------------- hybrid search

  /** `_search_hybrid`. `dense` and `sparse` are the scored points of the whole cluster that the two
      queries match; `k` and `c` are the request's unchecked integers. */
  method SearchHybrid(dense: seq<Hit>, sparse: seq<Hit>, metric: string, fetchK: nat, k: int, c: int,
                      shardCount: nat, hasVector: bool, hasSparse: bool) returns (r: Fusion)
    requires shardCount > 0 && DistinctIds(dense) && DistinctIds(sparse)
    ensures r.MissingQuery? <==> !hasVector || !hasSparse
    ensures r.DivisionByZero? <==> hasVector && hasSparse && Raises(dense, sparse, fetchK, c)
    ensures r.Ranked? ==> exists full :: Fused(dense, sparse, metric, fetchK, c, full) && r.hits == UpTo(full, k)
  {
    hide Fanout, GlobalTopK, TopK, Sort, UpTo, Fused, Share, Added, SmallerIsBetter, Get;
    if !hasVector || !hasSparse { return MissingQuery; }
    var smaller := SmallerIsBetter(metric, "exact");
    var denseTop := GlobalTopK(Fanout(smaller, dense, fetchK, 0, shardCount), fetchK, metric, "exact");
    var sparseTop := GlobalTopK(Fanout(false, sparse, fetchK, 0, shardCount), fetchK, metric, "sparse");
    MergeEqualsSingleNode(dense, fetchK, metric, "exact", shardCount);
    MergeEqualsSingleNode(sparse, fetchK, metric, "sparse", shardCount);
    assert SmallerIsBetter(metric, "sparse") == false by { SparseIsLargerFirst(metric); }
    TopKLength(smaller, dense, fetchK);
    TopKLength(false, sparse, fetchK);
    var first := AddRanks([], denseTop, c);
    if first.None? { return DivisionByZero; }
    var both := AddRanks(first.value, sparseTop, c);
    if both.None? { return DivisionByZero; }
    assert forall id :: Get([], id) == 0.0 && !HasId([], id) by { NothingScored(); }
    FusionIsFused(dense, sparse, metric, fetchK, c, both.value);
    return Ranked(UpTo(Sort(false, both.value), k));
  }

  lemma SparseIsLargerFirst(metric: string)
    ensures !SmallerIsBetter(metric, "sparse")
  {
  }

  lemma TopKLength(smaller: bool, points: seq<Hit>, k: nat)
    ensures |TopK(smaller, points, k)| == Min(k, |points|)
  {
  }

  lemma NothingScored()
    ensures forall id :: Get([], id) == 0.0 && !HasId([], id)
  {
  }

  lemma FusionIsFused(dense: seq<Hit>, sparse: seq<Hit>, metric: string, fetchK: nat, c: int, d: seq<Hit>)
    requires DistinctIds(dense) && DistinctIds(sparse) && !Raises(dense, sparse, fetchK, c) && DistinctIds(d)
    requires var l, m := TopK(SmallerIsBetter(metric, "exact"), dense, fetchK), TopK(false, sparse, fetchK);
      && |l| == Min(fetchK, |dense|) && |m| == Min(fetchK, |sparse|)
      && (forall id :: HasId(d, id) <==> HasId(l, id) || HasId(m, id))
      && (forall id :: Get(d, id) == Added(l, |l|, c, id) + Added(m, |m|, c, id))
    ensures Fused(dense, sparse, metric, fetchK, c, Sort(false, d))
  {
    hide Rank, CountAhead, TopK, Get, Added, Share, Fetched;
    var smaller, full := SmallerIsBetter(metric, "exact"), Sort(false, d);
    SortSorts(false, d);
    PermutationKeepsDistinct(d, full);
    SameIds(d, full);
    forall id ensures HasId(full, id) <==> Fetched(smaller, dense, fetchK, id) || Fetched(false, sparse, fetchK, id) {
      ListedIsFetched(smaller, dense, fetchK, id);
      ListedIsFetched(false, sparse, fetchK, id);
    }
    forall i | 0 <= i < |full|
      ensures full[i].score == Share(smaller, dense, fetchK, c, full[i].id) + Share(false, sparse, fetchK, c, full[i].id)
    {
      AddedIsShare(smaller, dense, fetchK, c, full[i].id);
      AddedIsShare(false, sparse, fetchK, c, full[i].id);
      assert full[i] in multiset(d);
      GetFinds(d, full[i].id);
    }
  }

  lemma SameIds(s: seq<Hit>, t: seq<Hit>)
    requires multiset(s) == multiset(t)
    ensures forall id :: HasId(s, id) <==> HasId(t, id)
  {
    forall i | 0 <= i < |s| ensures HasId(t, s[i].id) { assert s[i] in multiset(t); }
    forall i | 0 <= i < |t| ensures HasId(s, t[i].id) { assert t[i] in multiset(s); }
  }

  /** The specification leaves no choice: there is one fused ranking, whatever the shard count. */
  lemma OneFusedRanking(dense: seq<Hit>, sparse: seq<Hit>, metric: string, fetchK: nat, c: int, f: seq<Hit>, g: seq<Hit>)
    requires !Raises(dense, sparse, fetchK, c)
    requires Fused(dense, sparse, metric, fetchK, c, f) && Fused(dense, sparse, metric, fetchK, c, g)
    ensures f == g
  {
    hide Rank, Share, Fetched;
    Covers(dense, sparse, metric, fetchK, c, f, g);
    Covers(dense, sparse, metric, fetchK, c, g, f);
    forall h ensures multiset(f)[h] == multiset(g)[h] {
      OnceInDistinct(f, h);
      OnceInDistinct(g, h);
      assert h in f <==> h in multiset(f);
      assert h in g <==> h in multiset(g);
    }
    assert multiset(f) == multiset(g);
    SortOfSorted(false, f);
    SortOfSorted(false, g);
    SortIgnoresOrder(false, f, g);
  }

  lemma Covers(dense: seq<Hit>, sparse: seq<Hit>, metric: string, fetchK: nat, c: int, f: seq<Hit>, g: seq<Hit>)
    requires !Raises(dense, sparse, fetchK, c)
    requires Fused(dense, sparse, metric, fetchK, c, f) && Fused(dense, sparse, metric, fetchK, c, g)
    ensures forall h :: h in f ==> h in g
  {
    hide Rank, Share, Fetched;
    forall i | 0 <= i < |f| ensures f[i] in g {
      assert HasId(f, f[i].id);
      var j :| 0 <= j < |g| && g[j].id == f[i].id;
      assert g[j] == f[i];
    }
  }

  // ---------------------------------------------------------------- dominance

  /** `a` is fetched by the ranking and `b` is not, or comes after `a`. */
  ghost predicate Beats(smaller: bool, points: seq<Hit>, fetchK: nat, a: int, b: int) {
    && Fetched(smaller, points, fetchK, a)
    && (Fetched(smaller, points, fetchK, b) ==> Rank(smaller, points, a) < Rank(smaller, points, b))
  }

  lemma BeatsShare(smaller: bool, points: seq<Hit>, fetchK: nat, c: int, a: int, b: int)
    requires !HitsZero(c, Min(fetchK, |points|)) && Beats(smaller, points, fetchK, a, b)
    requires c >= 0 || Fetched(smaller, points, fetchK, b)
    ensures Share(smaller, points, fetchK, c, a) > Share(smaller, points, fetchK, c, b)
  {
    hide Rank, CountAhead;
    var ra, rb := c + Rank(smaller, points, a), c + Rank(smaller, points, b);
    if Fetched(smaller, points, fetchK, b) {
      Reciprocals(ra, rb);
    } else {
      assert 1.0 / ra as real > 0.0;
    }
  }

  lemma Reciprocals(x: int, y: int)
    requires x < y && (x > 0 || y < 0)
    ensures 1.0 / x as real > 1.0 / y as real
  {
    var u, v := x as real, y as real;
    if x > 0 { Quotients(u, v); } else { Quotients(-v, -u); }
  }

  lemma Quotients(u: real, v: real)
    requires 0.0 < u < v
    ensures 1.0 / u > 1.0 / v
    ensures 1.0 / -v > 1.0 / -u
  {
    var p, q := 1.0 / u, 1.0 / v;
    assert p * u == 1.0 && q * v == 1.0 && q > 0.0;
    assert q * u < q * v;
    assert 1.0 / -v == -q && 1.0 / -u == -p;
  }

  /** A point that beats another in both rankings precedes it in every result that holds the
      other, whenever the rank constant is at least -2 or both rankings fetched both points. */
  lemma BetterInBothComesFirst(dense: seq<Hit>, sparse: seq<Hit>, metric: string, fetchK: nat, k: int, c: int,
                               full: seq<Hit>, a: int, b: int, j: nat)
    requires !Raises(dense, sparse, fetchK, c) && Fused(dense, sparse, metric, fetchK, c, full)
    requires Beats(SmallerIsBetter(metric, "exact"), dense, fetchK, a, b) && Beats(false, sparse, fetchK, a, b)
    requires c >= -2 || (Fetched(SmallerIsBetter(metric, "exact"), dense, fetchK, b) && Fetched(false, sparse, fetchK, b))
    requires j < |UpTo(full, k)| && UpTo(full, k)[j].id == b
    ensures exists i :: 0 <= i < j && UpTo(full, k)[i].id == a
  {
    hide Rank, Share, Fetched, SmallerIsBetter;
    var smaller := SmallerIsBetter(metric, "exact");
    assert full[j] == UpTo(full, k)[j] && HasId(full, b);
    if c >= -2 { SmallConstant(smaller, dense, sparse, fetchK, c, a, b); }
    BeatsShare(smaller, dense, fetchK, c, a, b);
    BeatsShare(false, sparse, fetchK, c, a, b);
    assert HasId(full, a);
    var i :| 0 <= i < |full| && full[i].id == a;
    assert Ahead(false, full[i], full[j]);
    assert UpTo(full, k)[i] == full[i];
  }

  /** With -2 or -1 the call raises before two points can be ranked. */
  lemma SmallConstant(smaller: bool, dense: seq<Hit>, sparse: seq<Hit>, fetchK: nat, c: int, a: int, b: int)
    requires !Raises(dense, sparse, fetchK, c) && Beats(smaller, dense, fetchK, a, b) && Beats(false, sparse, fetchK, a, b)
    requires Fetched(smaller, dense, fetchK, b) || Fetched(false, sparse, fetchK, b)
    requires c >= -2
    ensures c >= 0
  {
    hide Rank;
  }

  /** Below -2 the side condition is needed: shares are negative, and the point that one ranking
      does not list overtakes the point that beats it in both. */
  lemma NegativeConstantReverses(c: int)
    requires c <= -3
    ensures var dense, sparse := [Hit(2, 9.0), Hit(1, 8.0)], [Hit(2, 9.0)];
      && !Raises(dense, sparse, 2, c)
      && Beats(false, dense, 2, 2, 1) && Beats(false, sparse, 2, 2, 1)
      && Fused(dense, sparse, "dot", 2, c, [Hit(1, 1.0 / (c + 2) as real), Hit(2, 2.0 / (c + 1) as real)])
  {
    var dense, sparse := [Hit(2, 9.0), Hit(1, 8.0)], [Hit(2, 9.0)];
    var full := [Hit(1, 1.0 / (c + 2) as real), Hit(2, 2.0 / (c + 1) as real)];
    assert dense[1..] == [Hit(1, 8.0)] && dense[1..][1..] == [] && sparse[1..] == [];
    assert dense[0].id == 2 && dense[1].id == 1 && sparse[0].id == 2;
    assert Rank(false, dense, 2) == 1 && Rank(false, dense, 1) == 2;
    assert Rank(false, sparse, 2) == 1 && Rank(false, sparse, 1) == 0;
    assert forall id :: id != 1 && id != 2 ==> Rank(false, dense, id) == 0 && Rank(false, sparse, id) == 0;
    assert full[0].id == 1 && full[1].id == 2;
    HalfPlus(c);
  }

  lemma HalfPlus(c: int)
    requires c <= -3
    ensures 1.0 / (c + 1) as real + 1.0 / (c + 1) as real == 2.0 / (c + 1) as real
    ensures 2.0 / (c + 1) as real <= 1.0 / (c + 2) as real
  {
    var u, v := -((c + 1) as real), -((c + 2) as real);
    assert u >= 2.0 && v == u - 1.0;
    var p, q := 1.0 / (c + 1) as real, 1.0 / (c + 2) as real;
    assert p * u == -1.0 && q * v == -1.0;
    assert (2.0 * p - q) * (u * v) == -2.0 * v + u;
    assert u * v > 0.0;
  }

  // ---------------------------------------------------------------- in plain terms

  ghost function AllAhead(smaller: bool, points: seq<Hit>, h: Hit): set<Hit> { set g | g in points && Ahead(smaller, g, h) }

  lemma OneMoreAhead(smaller: bool, first: Hit, rest: seq<Hit>, h: Hit)
    requires first !in rest
    ensures AllAhead(smaller, [first] + rest, h) == if Ahead(smaller, first, h) then AllAhead(smaller, rest, h) + {first} else AllAhead(smaller, rest, h)
    ensures first !in AllAhead(smaller, rest, h)
  {
    hide Ahead;
  }

  lemma {:induction false} CountIsCardinality(smaller: bool, points: seq<Hit>, h: Hit)
    requires DistinctIds(points)
    ensures CountAhead(smaller, points, h) == |AllAhead(smaller, points, h)|
  {
    if points == [] {
      assert AllAhead(smaller, points, h) == {};
    } else {
      var rest := points[1..];
      assert points == [points[0]] + rest && points[0] !in rest;
      hide Ahead;
      CountIsCardinality(smaller, rest, h);
      OneMoreAhead(smaller, points[0], rest, h);
      hide AllAhead;
    }
  }

  /** A point's rank is one more than the number of points nearer to the query in l2, or with a higher
      score in every other metric and in the sparse ranking, counting equal scores by ID. */
  lemma RankInPlainTerms(points: seq<Hit>, metric: string, h: Hit)
    requires DistinctIds(points) && h in points
    ensures var rank := Rank(SmallerIsBetter(metric, "exact"), points, h.id);
      && (metric == "l2" ==> rank == |set g | g in points && (g.score < h.score || (g.score == h.score && g.id < h.id))| + 1)
      && (metric != "l2" ==> rank == |set g | g in points && (g.score > h.score || (g.score == h.score && g.id < h.id))| + 1)
    ensures Rank(false, points, h.id) == |set g | g in points && (g.score > h.score || (g.score == h.score && g.id < h.id))| + 1
  {
    var k :| 0 <= k < |points| && points[k] == h;
    assert HasId(points, h.id);
    assert forall i :: 0 <= i < |points| && points[i].id == h.id ==> points[i] == h;
    CountIsCardinality(true, points, h);
    CountIsCardinality(false, points, h);
    assert AllAhead(true, points, h) == set g | g in points && (g.score < h.score || (g.score == h.score && g.id < h.id));
    assert AllAhead(false, points, h) == set g | g in points && (g.score > h.score || (g.score == h.score && g.id < h.id));
  }

  /** The fused ranking: higher sums first, equal sums by ID, each sum made of 1 / (c + rank) for every
      ranking that fetches the point. */
  lemma FusedInPlainTerms(dense: seq<Hit>, sparse: seq<Hit>, metric: string, fetchK: nat, c: int, full: seq<Hit>)
    requires !Raises(dense, sparse, fetchK, c) && Fused(dense, sparse, metric, fetchK, c, full)
    ensures forall i, j :: 0 <= i < j < |full| ==>
      full[i].score > full[j].score || (full[i].score == full[j].score && full[i].id < full[j].id)
    ensures forall i :: 0 <= i < |full| ==>
      var d, s := Rank(SmallerIsBetter(metric, "exact"), dense, full[i].id), Rank(false, sparse, full[i].id);
      && (1 <= d <= Min(fetchK, |dense|) || 1 <= s <= Min(fetchK, |sparse|))
      && full[i].score == (if 1 <= d <= Min(fetchK, |dense|) then 1.0 / (c + d) as real else 0.0)
                        + (if 1 <= s <= Min(fetchK, |sparse|) then 1.0 / (c + s) as real else 0.0)
  {
    hide Rank;
    assert forall i :: 0 <= i < |full| ==> HasId(full, full[i].id);
  }
}
