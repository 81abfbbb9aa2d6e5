/** Distributed query merge: fan-out over shards, global Top-K and reciprocal-rank fusion, with
    real-valued scores. */
module Merge {
  import opened Protocol

  datatype Hit = Hit(id: int, score: real)

  /** `metric == "l2" and mode not in {"sparse", "hybrid"}`: smaller scores rank first. */
  predicate SmallerIsBetter(metric: string, mode: string) {
    metric == "l2" && mode != "sparse" && mode != "hybrid"
  }

  /** The sort key of `_global_topk`: score in the metric's direction, then ascending ID. */
  predicate Ahead(smaller: bool, a: Hit, b: Hit) {
    if a.score != b.score then (if smaller then a.score < b.score else a.score > b.score) else a.id < b.id
  }

  // ---------------------------------------------------------------- sorting

  function Insert(smaller: bool, x: Hit, s: seq<Hit>): (r: seq<Hit>)
    ensures |r| == |s| + 1
  {
    if s == [] then [x]
    else if Ahead(smaller, s[0], x) then [s[0]] + Insert(smaller, x, s[1..])
    else [x] + s
  }

  /** Python's `sorted` under the key. */
  function Sort(smaller: bool, s: seq<Hit>): (r: seq<Hit>)
    ensures |r| == |s|
  {
    if s == [] then [] else Insert(smaller, s[0], Sort(smaller, s[1..]))
  }

  predicate Sorted(smaller: bool, s: seq<Hit>) {
    forall i, j :: 0 <= i < j < |s| ==> !Ahead(smaller, s[j], s[i])
  }

  lemma {:induction false} InsertPermutes(smaller: bool, x: Hit, s: seq<Hit>)
    ensures multiset(Insert(smaller, x, s)) == multiset(s) + multiset{x}
  {
    if s != [] {
      assert s == [s[0]] + s[1..];
      if Ahead(smaller, s[0], x) { InsertPermutes(smaller, x, s[1..]); }
    }
  }

  lemma ConsSorts(smaller: bool, a: Hit, t: seq<Hit>)
    requires Sorted(smaller, t) && forall k :: 0 <= k < |t| ==> !Ahead(smaller, t[k], a)
    ensures Sorted(smaller, [a] + t)
  {
    hide Ahead;
  }

  lemma {:induction false} InsertSorts(smaller: bool, x: Hit, s: seq<Hit>)
    requires Sorted(smaller, s)
    ensures Sorted(smaller, Insert(smaller, x, s))
  {
    if s != [] {
      if Ahead(smaller, s[0], x) {
        InsertSorts(smaller, x, s[1..]);
        InsertPermutes(smaller, x, s[1..]);
        var t := Insert(smaller, x, s[1..]);
        forall k | 0 <= k < |t| ensures !Ahead(smaller, t[k], s[0]) {
          assert t[k] in multiset(t);
          assert t[k] == x || t[k] in s[1..];
        }
        ConsSorts(smaller, s[0], t);
      } else {
        assert forall k :: 0 <= k < |s| ==> !Ahead(smaller, s[k], x);
        ConsSorts(smaller, x, s);
      }
    }
  }

  /** Sorted and a permutation. */
  lemma {:induction false} SortSorts(smaller: bool, s: seq<Hit>)
    ensures Sorted(smaller, Sort(smaller, s))
    ensures multiset(Sort(smaller, s)) == multiset(s)
  {
    if s != [] {
      SortSorts(smaller, s[1..]);
      InsertSorts(smaller, s[0], Sort(smaller, s[1..]));
      InsertPermutes(smaller, s[0], Sort(smaller, s[1..]));
      assert s == [s[0]] + s[1..];
    }
  }

  lemma {:induction false} InsertCommutes(smaller: bool, x: Hit, y: Hit, s: seq<Hit>)
    ensures Insert(smaller, x, Insert(smaller, y, s)) == Insert(smaller, y, Insert(smaller, x, s))
  {
    if s != [] && Ahead(smaller, s[0], x) && Ahead(smaller, s[0], y) {
      InsertCommutes(smaller, x, y, s[1..]);
      assert Insert(smaller, x, s)[1..] == Insert(smaller, x, s[1..]);
      assert Insert(smaller, y, s)[1..] == Insert(smaller, y, s[1..]);
    } else if s != [] {
      assert ([x] + s)[1..] == s && ([y] + s)[1..] == s;
    } else {
      assert [x][1..] == [] && [y][1..] == [];
    }
  }

  lemma {:induction false} SortPulls(smaller: bool, s: seq<Hit>, i: nat)
    requires i < |s|
    ensures Sort(smaller, s) == Insert(smaller, s[i], Sort(smaller, s[..i] + s[i + 1..]))
  {
    var rest := s[..i] + s[i + 1..];
    if i == 0 {
      assert rest == s[1..];
    } else {
      SortPulls(smaller, s[1..], i - 1);
      assert s[1..][..i - 1] + s[1..][i..] == rest[1..];
      InsertCommutes(smaller, s[0], s[i], Sort(smaller, rest[1..]));
    }
  }

  /** The order in which results arrive does not matter. */
  lemma {:induction false} SortIgnoresOrder(smaller: bool, a: seq<Hit>, b: seq<Hit>)
    requires multiset(a) == multiset(b)
    ensures Sort(smaller, a) == Sort(smaller, b)
    decreases |a|
  {
    if a == [] {
      assert |multiset(b)| == 0;
    } else {
      assert a[0] in multiset(a);
      var i :| 0 <= i < |b| && b[i] == a[0];
      var rest := b[..i] + b[i + 1..];
      assert b == b[..i] + [b[i]] + b[i + 1..];
      assert a == [a[0]] + a[1..];
      assert multiset(rest) == multiset(b) - multiset{b[i]};
      SortIgnoresOrder(smaller, a[1..], rest);
      SortPulls(smaller, b, i);
    }
  }

  // ---------------------------------------------------------------- Top-K

  function Take<T>(s: seq<T>, k: nat): seq<T> {
    if k < |s| then s[..k] else s
  }

  /** Python's `items[:k]`, negative `k` included. */
  function UpTo<T>(items: seq<T>, k: int): seq<T> {
    if k >= 0 then Take(items, k) else if -k <= |items| then items[..|items| + k] else []
  }

  function TopK(smaller: bool, s: seq<Hit>, k: nat): seq<Hit> {
    Take(Sort(smaller, s), k)
  }

  lemma {:induction false} InsertAfterTake(smaller: bool, x: Hit, s: seq<Hit>, k: nat)
    ensures Take(Insert(smaller, x, s), k) == Take(Insert(smaller, x, Take(s, k)), k)
  {
    if k > 0 && s != [] {
      assert Take(s, k)[1..] == Take(s[1..], k - 1);
      if Ahead(smaller, s[0], x) {
        InsertAfterTake(smaller, x, s[1..], k - 1);
        var t := Insert(smaller, x, s[1..]);
        assert Take([s[0]] + t, k) == [s[0]] + Take(t, k - 1);
        var u := Insert(smaller, x, Take(s[1..], k - 1));
        assert Take([s[0]] + u, k) == [s[0]] + Take(u, k - 1);
      } else {
        assert Take([x] + s, k) == [x] + Take(s, k - 1);
        assert Take([x] + Take(s, k), k) == [x] + Take(Take(s, k), k - 1);
        assert Take(Take(s, k), k - 1) == Take(s, k - 1);
      }
    }
  }

  /** Truncating one part of the input to its own Top-K does not change the Top-K. */
  lemma {:induction false} LocalTopKSuffices(smaller: bool, a: seq<Hit>, b: seq<Hit>, k: nat)
    ensures TopK(smaller, a + TopK(smaller, b, k), k) == TopK(smaller, a + b, k)
  {
    if a == [] {
      var local := TopK(smaller, b, k);
      assert a + local == local && a + b == b;
      SortSorts(smaller, b);
      TakeSorted(smaller, Sort(smaller, b), k);
    } else {
      LocalTopKSuffices(smaller, a[1..], b, k);
      var l := a[1..] + TopK(smaller, b, k);
      var r := a[1..] + b;
      assert (a + TopK(smaller, b, k))[1..] == l && (a + b)[1..] == r;
      InsertAfterTake(smaller, a[0], Sort(smaller, l), k);
      InsertAfterTake(smaller, a[0], Sort(smaller, r), k);
    }
  }

  /** A prefix of a sorted list is already sorted. */
  lemma TakeSorted(smaller: bool, s: seq<Hit>, k: nat)
    requires Sorted(smaller, s)
    ensures Sort(smaller, Take(s, k)) == Take(s, k)
  {
    SortOfSorted(smaller, Take(s, k));
  }

  lemma {:induction false} SortOfSorted(smaller: bool, s: seq<Hit>)
    requires Sorted(smaller, s)
    ensures Sort(smaller, s) == s
  {
    if s != [] {
      SortOfSorted(smaller, s[1..]);
      assert s == [s[0]] + s[1..];
      if |s| > 1 {
        assert !Ahead(smaller, s[1], s[0]);
      }
    }
  }

  // ---------------------------------------------------------------- shards

  /** The points that `route` sends to one shard. */
  function OnShard(points: seq<Hit>, shard: int, shardCount: int): seq<Hit>
    requires shardCount > 0
  {
    if points == [] then []
    else (if Route(points[0].id, shardCount) == shard then [points[0]] else []) + OnShard(points[1..], shard, shardCount)
  }

  /** `_fanout`: each shard answers with its own Top-K, in shard order; shards `from` onwards. */
  function Fanout(smaller: bool, points: seq<Hit>, k: nat, from: nat, shardCount: nat): seq<Hit>
    requires shardCount > 0 && from <= shardCount
    decreases shardCount - from
  {
    if from == shardCount then []
    else TopK(smaller, OnShard(points, from, shardCount), k) + Fanout(smaller, points, k, from + 1, shardCount)
  }

  function AllShards(points: seq<Hit>, from: nat, shardCount: nat): seq<Hit>
    requires shardCount > 0 && from <= shardCount
    decreases shardCount - from
  {
    if from == shardCount then [] else OnShard(points, from, shardCount) + AllShards(points, from + 1, shardCount)
  }

  /** `{result.id: result for result in results}.values()`: a later result replaces an earlier
      one of the same ID, in the earlier one's place. */
  function Unique(results: seq<Hit>): seq<Hit>
    decreases |results|
  {
    if results == [] then []
    else
      var u := Unique(results[..|results| - 1]);
      var last := results[|results| - 1];
      Put(u, last)
  }

  function Put(u: seq<Hit>, h: Hit): seq<Hit> {
    if u == [] then [h] else if u[0].id == h.id then [h] + u[1..] else [u[0]] + Put(u[1..], h)
  }

  /** `_global_topk`, which slices with any integer `k`. */
  function GlobalTopK(results: seq<Hit>, k: int, metric: string, mode: string): seq<Hit> {
    UpTo(Sort(SmallerIsBetter(metric, mode), Unique(results)), k)
  }

  predicate DistinctIds(s: seq<Hit>) {
    forall i, j :: 0 <= i < j < |s| ==> s[i].id != s[j].id
  }

  lemma {:induction false} PutNew(u: seq<Hit>, h: Hit)
    requires forall i :: 0 <= i < |u| ==> u[i].id != h.id
    ensures Put(u, h) == u + [h]
  {
    if u != [] {
      PutNew(u[1..], h);
      assert u == [u[0]] + u[1..];
    }
  }

  lemma {:induction false} UniqueOfDistinct(s: seq<Hit>)
    requires DistinctIds(s)
    ensures Unique(s) == s
    decreases |s|
  {
    if s != [] {
      var front := s[..|s| - 1];
      UniqueOfDistinct(front);
      PutNew(front, s[|s| - 1]);
      assert s == front + [s[|s| - 1]];
    }
  }

  // every routed point is on exactly one shard

  lemma {:induction false} ShardContents(points: seq<Hit>, shard: int, shardCount: int)
    requires shardCount > 0
    ensures forall h :: multiset(OnShard(points, shard, shardCount))[h] == (if Route(h.id, shardCount) == shard then multiset(points)[h] else 0)
  {
    if points != [] {
      ShardContents(points[1..], shard, shardCount);
      assert points == [points[0]] + points[1..];
    }
  }

  lemma {:induction false} AllShardsContents(points: seq<Hit>, from: nat, shardCount: nat)
    requires shardCount > 0 && from <= shardCount
    ensures forall h :: multiset(AllShards(points, from, shardCount))[h] == (if Route(h.id, shardCount) >= from then multiset(points)[h] else 0)
    decreases shardCount - from
  {
    if from < shardCount {
      ShardContents(points, from, shardCount);
      AllShardsContents(points, from + 1, shardCount);
    }
  }

  lemma {:induction false} FanoutSuffices(smaller: bool, a: seq<Hit>, points: seq<Hit>, k: nat, from: nat, shardCount: nat)
    requires shardCount > 0 && from <= shardCount
    ensures TopK(smaller, a + Fanout(smaller, points, k, from, shardCount), k) == TopK(smaller, a + AllShards(points, from, shardCount), k)
    decreases shardCount - from
  {
    hide TopK, OnShard;
    if from < shardCount {
      var local := OnShard(points, from, shardCount);
      var top, rest, all := TopK(smaller, local, k), Fanout(smaller, points, k, from + 1, shardCount), AllShards(points, from + 1, shardCount);
      FanoutSuffices(smaller, a + top, points, k, from + 1, shardCount);
      assert a + (top + rest) == (a + top) + rest && a + (local + all) == (a + local) + all;
      MiddleTopKSuffices(smaller, a, local, all, k);
    }
  }

  lemma MiddleTopKSuffices(smaller: bool, a: seq<Hit>, b: seq<Hit>, c: seq<Hit>, k: nat)
    ensures TopK(smaller, (a + TopK(smaller, b, k)) + c, k) == TopK(smaller, (a + b) + c, k)
  {
    hide Sort, Take;
    var top := TopK(smaller, b, k);
    SortIgnoresOrder(smaller, (a + top) + c, (a + c) + top);
    LocalTopKSuffices(smaller, a + c, b, k);
    SortIgnoresOrder(smaller, (a + c) + b, (a + b) + c);
  }

  /** Whatever the shard count and however `route` spreads the points, merging the shards' local
      Top-K lists gives the Top-K of one sorted list of all points. */
  lemma MergeEqualsSingleNode(points: seq<Hit>, k: nat, metric: string, mode: string, shardCount: nat)
    requires shardCount > 0 && DistinctIds(points)
    ensures var smaller := SmallerIsBetter(metric, mode);
      GlobalTopK(Fanout(smaller, points, k, 0, shardCount), k, metric, mode) == TopK(smaller, points, k)
  {
    var smaller := SmallerIsBetter(metric, mode);
    var results, all := Fanout(smaller, points, k, 0, shardCount), AllShards(points, 0, shardCount);
    AllShardsContents(points, 0, shardCount);
    assert multiset(all) == multiset(points);
    FanoutDistinct(smaller, points, k, 0, shardCount);
    UniqueOfDistinct(results);
    FanoutSuffices(smaller, [], points, k, 0, shardCount);
    assert [] + results == results && [] + all == all;
    SortIgnoresOrder(smaller, all, points);
  }

  lemma {:induction false} TopKMembers(smaller: bool, s: seq<Hit>, k: nat)
    requires DistinctIds(s)
    ensures DistinctIds(TopK(smaller, s, k))
    ensures forall h :: h in TopK(smaller, s, k) ==> h in s
  {
    SortSorts(smaller, s);
    var t := Sort(smaller, s);
    forall h | h in t ensures h in s { assert h in multiset(t); }
    PermutationKeepsDistinct(s, t);
  }

  lemma {:induction false} PermutationKeepsDistinct(s: seq<Hit>, t: seq<Hit>)
    requires multiset(s) == multiset(t) && DistinctIds(s)
    ensures DistinctIds(t)
  {
    forall i, j | 0 <= i < j < |t| ensures t[i].id != t[j].id {
      assert t == t[..i] + [t[i]] + t[i + 1..j] + [t[j]] + t[j + 1..];
      assert t[i] in multiset(s) && t[j] in multiset(s);
      if t[i] == t[j] {
        assert multiset(t)[t[i]] >= 2;
        OnceInDistinct(s, t[i]);
      }
    }
  }

  lemma {:induction false} OnceInDistinct(s: seq<Hit>, h: Hit)
    requires DistinctIds(s)
    ensures multiset(s)[h] <= 1
  {
    if s != [] {
      assert s == [s[0]] + s[1..];
      OnceInDistinct(s[1..], h);
      if s[0] == h { assert h !in s[1..]; }
    }
  }

  lemma {:induction false} OnShardDistinct(points: seq<Hit>, shard: int, shardCount: int)
    requires shardCount > 0 && DistinctIds(points)
    ensures DistinctIds(OnShard(points, shard, shardCount))
    ensures forall h :: h in OnShard(points, shard, shardCount) ==> h in points && Route(h.id, shardCount) == shard
  {
    if points != [] {
      OnShardDistinct(points[1..], shard, shardCount);
      var rest := OnShard(points[1..], shard, shardCount);
      forall i | 0 <= i < |rest| ensures rest[i].id != points[0].id { assert rest[i] in points[1..]; }
    }
  }

  lemma {:induction false} FanoutDistinct(smaller: bool, points: seq<Hit>, k: nat, from: nat, shardCount: nat)
    requires shardCount > 0 && from <= shardCount && DistinctIds(points)
    ensures DistinctIds(Fanout(smaller, points, k, from, shardCount))
    ensures forall h :: h in Fanout(smaller, points, k, from, shardCount) ==> Route(h.id, shardCount) >= from
    decreases shardCount - from
  {
    hide TopK, OnShard, Route;
    if from < shardCount {
      var local := OnShard(points, from, shardCount);
      var top, rest := TopK(smaller, local, k), Fanout(smaller, points, k, from + 1, shardCount);
      OnShardDistinct(points, from, shardCount);
      TopKMembers(smaller, local, k);
      FanoutDistinct(smaller, points, k, from + 1, shardCount);
      forall i, j | 0 <= i < |top| && 0 <= j < |rest| ensures top[i].id != rest[j].id {
        assert top[i] in local && rest[j] in rest;
      }
      ConcatDistinct(top, rest);
    }
  }

  lemma ConcatDistinct(a: seq<Hit>, b: seq<Hit>)
    requires DistinctIds(a) && DistinctIds(b)
    requires forall i, j :: 0 <= i < |a| && 0 <= j < |b| ==> a[i].id != b[j].id
    ensures DistinctIds(a + b)
  {
  }

  // ---------------------------------------------------------------- in plain terms

  /** The hit is the last result of its ID, the one a dictionary keeps. */
  ghost predicate LastOfItsId(results: seq<Hit>, h: Hit) {
    exists k :: 0 <= k < |results| && results[k] == h && forall j :: k < j < |results| ==> results[j].id != h.id
  }

  ghost function Ids(results: seq<Hit>): set<int> { set h | h in results :: h.id }

  lemma {:induction false} PutKeepsOne(u: seq<Hit>, h: Hit)
    requires DistinctIds(u)
    ensures DistinctIds(Put(u, h))
    ensures forall g :: g in Put(u, h) <==> g == h || (g in u && g.id != h.id)
  {
    if u != [] {
      assert u == [u[0]] + u[1..];
      assert forall i :: 1 <= i < |u| ==> u[i].id != u[0].id;
      PutKeepsOne(u[1..], h);
      var rest := Put(u[1..], h);
      forall i | 0 <= i < |rest| && u[0].id != h.id ensures rest[i].id != u[0].id { assert rest[i] in rest; }
    }
  }

  lemma {:induction false} UniqueIsLast(results: seq<Hit>)
    ensures DistinctIds(Unique(results))
    ensures forall h :: h in Unique(results) <==> LastOfItsId(results, h)
    ensures Ids(Unique(results)) == Ids(results)
    decreases |results|
  {
    if results != [] {
      var front, last := results[..|results| - 1], results[|results| - 1];
      UniqueIsLast(front);
      PutKeepsOne(Unique(front), last);
      forall h ensures LastOfItsId(results, h) <==> h == last || (LastOfItsId(front, h) && h.id != last.id) { LastOfMore(front, last, results, h); }
      assert results == front + [last];
      assert Ids(results) == Ids(front) + {last.id};
      assert Ids(Unique(results)) == Ids(Unique(front)) + {last.id} by { IdsOfPut(Unique(front), last, Unique(results)); }
    }
  }

  lemma LastOfMore(front: seq<Hit>, last: Hit, results: seq<Hit>, h: Hit)
    requires results == front + [last]
    ensures LastOfItsId(results, h) <==> h == last || (LastOfItsId(front, h) && h.id != last.id)
  {
    if LastOfItsId(results, h) {
      var k :| 0 <= k < |results| && results[k] == h && forall j :: k < j < |results| ==> results[j].id != h.id;
      if k < |front| {
        assert front[k] == h && results[|front|] == last;
        assert forall j :: k < j < |front| ==> front[j] == results[j];
      }
    }
    if h == last { assert results[|front|] == h; }
    if LastOfItsId(front, h) && h.id != last.id {
      var k :| 0 <= k < |front| && front[k] == h && forall j :: k < j < |front| ==> front[j].id != h.id;
      assert results[k] == h;
    }
  }

  lemma IdsOfPut(u: seq<Hit>, h: Hit, r: seq<Hit>)
    requires forall g :: g in r <==> g == h || (g in u && g.id != h.id)
    ensures Ids(r) == Ids(u) + {h.id}
  {
    forall id ensures id in Ids(r) <==> id in Ids(u) + {h.id} {
      if id in Ids(u) && id != h.id {
        var g :| g in u && g.id == id;
        assert g in r;
      }
      assert h in r;
    }
  }

  lemma {:induction false} DistinctIdsCount(s: seq<Hit>)
    requires DistinctIds(s)
    ensures |Ids(s)| == |s|
  {
    if s != [] {
      var front, last := s[..|s| - 1], s[|s| - 1];
      DistinctIdsCount(front);
      assert s == front + [last];
      assert Ids(s) == Ids(front) + {last.id};
      assert last.id !in Ids(front);
    }
  }

  /** A sorted list of distinct hits, split anywhere: everything before the split precedes everything
      after it. */
  lemma SortedPrecedes(smaller: bool, s: seq<Hit>, i: nat, j: nat)
    requires Sorted(smaller, s) && DistinctIds(s) && i < j < |s|
    ensures smaller ==> s[i].score < s[j].score || (s[i].score == s[j].score && s[i].id < s[j].id)
    ensures !smaller ==> s[i].score > s[j].score || (s[i].score == s[j].score && s[i].id < s[j].id)
  {
  }

  /** What `_global_topk` returns. From any results it takes the last one of each ID; for l2 in a dense
      mode the smallest scores in ascending order, for every other metric or mode the largest in
      descending order, equal scores in ascending ID order; `k` of them if there are as many, and for
      a negative `k` all but the last -k. */
  lemma GlobalTopKIsBest(results: seq<Hit>, k: int, metric: string, mode: string)
    ensures var r, n := GlobalTopK(results, k, metric, mode), |Ids(results)|;
      && (forall i :: 0 <= i < |r| ==> LastOfItsId(results, r[i]))
      && |r| == (if k >= n then n else if k >= 0 then k else if n + k >= 0 then n + k else 0)
    ensures metric == "l2" && mode != "sparse" && mode != "hybrid" ==>
      var r := GlobalTopK(results, k, metric, mode);
      && (forall i, j :: 0 <= i < j < |r| ==> r[i].score < r[j].score || (r[i].score == r[j].score && r[i].id < r[j].id))
      && (forall i, h :: 0 <= i < |r| && LastOfItsId(results, h) && h !in r ==>
            r[i].score < h.score || (r[i].score == h.score && r[i].id < h.id))
    ensures metric != "l2" || mode == "sparse" || mode == "hybrid" ==>
      var r := GlobalTopK(results, k, metric, mode);
      && (forall i, j :: 0 <= i < j < |r| ==> r[i].score > r[j].score || (r[i].score == r[j].score && r[i].id < r[j].id))
      && (forall i, h :: 0 <= i < |r| && LastOfItsId(results, h) && h !in r ==>
            r[i].score > h.score || (r[i].score == h.score && r[i].id < h.id))
  {
    var smaller, r := SmallerIsBetter(metric, mode), GlobalTopK(results, k, metric, mode);
    var s := Sort(smaller, Unique(results));
    SortedCandidates(smaller, results);
    assert |r| <= |s| && r == s[..|r|];
    hide Sort, Unique, LastOfItsId, GlobalTopK, Sorted, DistinctIds, Ids;
    PrefixIsBest(smaller, results, s, r);
  }

  lemma SortedCandidates(smaller: bool, results: seq<Hit>)
    ensures var s := Sort(smaller, Unique(results));
      Sorted(smaller, s) && DistinctIds(s) && |s| == |Ids(results)| && forall h :: h in s <==> LastOfItsId(results, h)
  {
    var u := Unique(results);
    UniqueIsLast(results);
    DistinctIdsCount(u);
    SortSorts(smaller, u);
    PermutationKeepsDistinct(u, Sort(smaller, u));
    hide Sort, Unique, LastOfItsId;
    forall h ensures h in Sort(smaller, u) <==> LastOfItsId(results, h) { assert h in Sort(smaller, u) <==> h in multiset(u); }
  }

  lemma PrefixIsBest(smaller: bool, results: seq<Hit>, s: seq<Hit>, r: seq<Hit>)
    requires Sorted(smaller, s) && DistinctIds(s) && (forall h :: h in s <==> LastOfItsId(results, h))
    requires |r| <= |s| && r == s[..|r|]
    ensures forall i :: 0 <= i < |r| ==> LastOfItsId(results, r[i])
    ensures smaller ==>
      && (forall i, j :: 0 <= i < j < |r| ==> r[i].score < r[j].score || (r[i].score == r[j].score && r[i].id < r[j].id))
      && (forall i, h :: 0 <= i < |r| && LastOfItsId(results, h) && h !in r ==> r[i].score < h.score || (r[i].score == h.score && r[i].id < h.id))
    ensures !smaller ==>
      && (forall i, j :: 0 <= i < j < |r| ==> r[i].score > r[j].score || (r[i].score == r[j].score && r[i].id < r[j].id))
      && (forall i, h :: 0 <= i < |r| && LastOfItsId(results, h) && h !in r ==> r[i].score > h.score || (r[i].score == h.score && r[i].id < h.id))
  {
    hide LastOfItsId, Sorted, DistinctIds;
    assert forall i :: 0 <= i < |r| ==> r[i] == s[i] && s[i] in s;
    forall i, j | 0 <= i < j < |r|
      ensures smaller ==> r[i].score < r[j].score || (r[i].score == r[j].score && r[i].id < r[j].id)
      ensures !smaller ==> r[i].score > r[j].score || (r[i].score == r[j].score && r[i].id < r[j].id)
    {
      SortedPrecedes(smaller, s, i, j);
    }
    forall i, h | 0 <= i < |r| && LastOfItsId(results, h) && h !in r
      ensures smaller ==> r[i].score < h.score || (r[i].score == h.score && r[i].id < h.id)
      ensures !smaller ==> r[i].score > h.score || (r[i].score == h.score && r[i].id < h.id)
    {
      var j :| 0 <= j < |s| && s[j] == h;
      assert j >= |r|;
      SortedPrecedes(smaller, s, i, j);
    }
  }

  lemma DistinctAreLast(points: seq<Hit>, h: Hit)
    requires DistinctIds(points)
    ensures LastOfItsId(points, h) <==> h in points
  {
    if h in points {
      var k :| 0 <= k < |points| && points[k] == h;
    }
  }

  /** The distributed search in the same terms: of all points of the cluster, wherever routing put
      them, the best `k` in order. */
  lemma DistributedTopKIsBest(points: seq<Hit>, k: nat, metric: string, mode: string, shardCount: nat)
    requires shardCount > 0 && DistinctIds(points)
    ensures var r := GlobalTopK(Fanout(SmallerIsBetter(metric, mode), points, k, 0, shardCount), k, metric, mode);
      && (forall i :: 0 <= i < |r| ==> r[i] in points) && |r| == (if k < |points| then k else |points|)
      && (metric == "l2" && mode != "sparse" && mode != "hybrid" ==>
            && (forall i, j :: 0 <= i < j < |r| ==> r[i].score < r[j].score || (r[i].score == r[j].score && r[i].id < r[j].id))
            && (forall i, h :: 0 <= i < |r| && h in points && h !in r ==> r[i].score < h.score || (r[i].score == h.score && r[i].id < h.id)))
      && (metric != "l2" || mode == "sparse" || mode == "hybrid" ==>
            && (forall i, j :: 0 <= i < j < |r| ==> r[i].score > r[j].score || (r[i].score == r[j].score && r[i].id < r[j].id))
            && (forall i, h :: 0 <= i < |r| && h in points && h !in r ==> r[i].score > h.score || (r[i].score == h.score && r[i].id < h.id)))
  {
    UniqueOfDistinct(points);
    assert GlobalTopK(points, k, metric, mode) == TopK(SmallerIsBetter(metric, mode), points, k);
    hide LastOfItsId, GlobalTopK, TopK, Fanout, Sort, DistinctIds, Ids, SmallerIsBetter;
    MergeEqualsSingleNode(points, k, metric, mode, shardCount);
    DistinctIdsCount(points);
    forall h ensures LastOfItsId(points, h) <==> h in points { DistinctAreLast(points, h); }
    GlobalTopKIsBest(points, k, metric, mode);
  }

  /** Routing reads the signed 64-bit ID as unsigned. */
  lemma RouteIsUnsigned(pointId: int, shardCount: int)
    requires shardCount > 0 && -0x8000_0000_0000_0000 <= pointId < 0x8000_0000_0000_0000
    ensures pointId >= 0 ==> Route(pointId, shardCount) == pointId % shardCount
    ensures pointId < 0 ==> Route(pointId, shardCount) == (0x1_0000_0000_0000_0000 + pointId) % shardCount
  {
  }
}
