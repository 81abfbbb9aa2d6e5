/** Sparse columns of an Arrow batch: the flattened check over offsets, terms and weights, against
    the row-by-row validator. */
module SparseBatch {

  /** A floating-point number; rounding plays no part. */
  datatype Float = Finite(value: real) | Infinite(negative: bool) | NaN

  predicate GoodWeight(w: Float) { w.Finite? && w.value != 0.0 }

  datatype Element = Element(termId: int, weight: Float)

  /** What a sparse row must be: ascending non-negative terms with finite, non-zero weights. */
  predicate GoodRow(row: seq<Element>) {
    && (forall i :: 0 <= i < |row| ==> row[i].termId >= 0)
    && (forall i :: 0 <= i < |row| ==> row[i].weight != NaN && !row[i].weight.Infinite? && row[i].weight != Finite(0.0))
    && (forall i, j :: 0 <= i < j < |row| ==> row[i].termId < row[j].termId)
  }

  /** `_validate_sparse`: remembers the previous term. */
  method ValidateSparse(elements: seq<Element>) returns (ok: bool)
    ensures ok <==> GoodRow(elements)
  {
    var previous := -1;
    for i := 0 to |elements|
      invariant GoodRow(elements[..i])
      invariant previous == if i == 0 then -1 else elements[i - 1].termId
    {
      if elements[i].termId < 0 || elements[i].termId <= previous { return false; }
      if !GoodWeight(elements[i].weight) { return false; }
      previous := elements[i].termId;
    }
    assert elements[..|elements|] == elements;
    return true;
  }

  function Zip(terms: seq<int>, weights: seq<Float>): (row: seq<Element>)
    requires |terms| == |weights|
    ensures |row| == |terms| && forall i :: 0 <= i < |row| ==> row[i] == Element(terms[i], weights[i])
  {
    seq(|terms|, i requires 0 <= i < |terms| => Element(terms[i], weights[i]))
  }

  /** Row `r` of the batch is a non-empty slice inside the columns. */
  predicate RowInBounds(offsets: seq<int>, n: nat, r: nat)
    requires r + 1 < |offsets|
  {
    0 <= offsets[r] < offsets[r + 1] <= n
  }

  ghost predicate RowGood(offsets: seq<int>, terms: seq<int>, weights: seq<Float>, r: nat)
    requires |terms| == |weights| && r + 1 < |offsets| && RowInBounds(offsets, |terms|, r)
  {
    GoodRow(Zip(terms, weights)[offsets[r]..offsets[r + 1]])
  }

  /** Every row is non-empty, in bounds and good; a batch without rows still needs its one offset
      in bounds. */
  ghost predicate GoodBatch(offsets: seq<int>, terms: seq<int>, weights: seq<Float>)
    requires |offsets| > 0
  {
    && |terms| == |weights|
    && 0 <= offsets[0] <= |terms|
    && forall r :: 0 <= r < |offsets| - 1 ==> RowInBounds(offsets, |terms|, r) && RowGood(offsets, terms, weights, r)
  }

  predicate Increasing(offsets: seq<int>) {
    forall r :: 0 <= r < |offsets| - 1 ==> offsets[r] < offsets[r + 1]
  }

  lemma {:induction false} IncreasingFar(offsets: seq<int>, r: nat, s: nat)
    requires Increasing(offsets) && r <= s < |offsets|
    ensures offsets[r] + (s - r) <= offsets[s]
  {
    if r < s { IncreasingFar(offsets, r, s - 1); }
  }

  /** Position `p` of the active slice is the last of its row, and another row follows. */
  ghost predicate Boundary(offsets: seq<int>, p: int) {
    exists r :: 0 < r < |offsets| - 1 && offsets[r] - offsets[0] - 1 == p
  }

  /** Each active position is in exactly one row. */
  lemma {:induction false} RowAt(offsets: seq<int>, p: int, s: nat) returns (r: nat)
    requires Increasing(offsets) && s < |offsets| && offsets[0] <= p < offsets[s]
    ensures r + 1 <= s && offsets[r] <= p < offsets[r + 1]
  {
    if offsets[s - 1] <= p {
      r := s - 1;
    } else {
      r := RowAt(offsets, p, s - 1);
    }
  }

  predicate Rises(terms: seq<int>, p: int) { 0 <= p < |terms| - 1 && terms[p] < terms[p + 1] }

  predicate AscendingIn(terms: seq<int>, low: int, high: int) {
    forall i, j :: 0 <= low <= i < j < high <= |terms| ==> terms[i] < terms[j]
  }

  predicate AscendingRow(offsets: seq<int>, terms: seq<int>, r: nat) {
    r + 1 < |offsets| && AscendingIn(terms, offsets[r], offsets[r + 1])
  }

  lemma {:induction false} Climb(terms: seq<int>, low: int, high: int)
    requires 0 <= low <= high <= |terms| && forall p :: low <= p < high - 1 ==> Rises(terms, p)
    ensures AscendingIn(terms, low, high)
    decreases high - low
  {
    if low < high {
      Climb(terms, low, high - 1);
      if low < high - 1 { assert Rises(terms, high - 2); }
    }
  }

  lemma RowWithin(offsets: seq<int>, r: nat)
    requires Increasing(offsets) && r + 1 < |offsets|
    ensures offsets[0] <= offsets[r] < offsets[r + 1] <= offsets[|offsets| - 1]
  {
    IncreasingFar(offsets, 0, r);
    IncreasingFar(offsets, r + 1, |offsets| - 1);
  }

  /** No position strictly inside a row is a boundary. */
  lemma InsideRow(offsets: seq<int>, r: nat, p: int)
    requires Increasing(offsets) && r + 1 < |offsets| && offsets[r] <= p < offsets[r + 1] - 1
    ensures !Boundary(offsets, p - offsets[0])
  {
    forall s | 0 < s < |offsets| - 1 ensures offsets[s] - 1 != p {
      if s <= r { IncreasingFar(offsets, s, r); } else { IncreasingFar(offsets, r + 1, s); }
    }
  }

  /** Ascending neighbours everywhere but at row boundaries is the same as ascending rows. */
  lemma NeighboursAreRows(offsets: seq<int>, terms: seq<int>)
    requires |offsets| > 0 && Increasing(offsets) && 0 <= offsets[0] && offsets[|offsets| - 1] <= |terms|
    ensures (forall p :: offsets[0] <= p < offsets[|offsets| - 1] - 1 && !Boundary(offsets, p - offsets[0]) ==> Rises(terms, p))
      <==> forall r :: 0 <= r < |offsets| - 1 ==> AscendingRow(offsets, terms, r)
  {
    hide Boundary;
    var last := |offsets| - 1;
    if forall p :: offsets[0] <= p < offsets[last] - 1 && !Boundary(offsets, p - offsets[0]) ==> Rises(terms, p) {
      forall r | 0 <= r < last ensures AscendingRow(offsets, terms, r) {
        RowWithin(offsets, r);
        forall p | offsets[r] <= p < offsets[r + 1] - 1 ensures Rises(terms, p) { InsideRow(offsets, r, p); }
        Climb(terms, offsets[r], offsets[r + 1]);
      }
    }
    if forall r :: 0 <= r < last ==> AscendingRow(offsets, terms, r) {
      forall p | offsets[0] <= p < offsets[last] - 1 && !Boundary(offsets, p - offsets[0]) ensures Rises(terms, p) {
        var r := RowAt(offsets, p, last);
        RowWithin(offsets, r);
        if p == offsets[r + 1] - 1 { LastOfRow(offsets, r, p); }
        assert AscendingRow(offsets, terms, r);
      }
    }
  }

  lemma LastOfRow(offsets: seq<int>, r: nat, p: int)
    requires r + 1 < |offsets| && p == offsets[r + 1] - 1
    ensures r + 1 < |offsets| - 1 ==> Boundary(offsets, p - offsets[0])
  {
  }

  /** The rows of the batch are in bounds exactly when the offsets increase and both ends are. */
  lemma BoundsAreEnds(offsets: seq<int>, n: nat)
    requires |offsets| > 0
    ensures 0 <= offsets[0] && offsets[|offsets| - 1] <= n && Increasing(offsets)
      <==> 0 <= offsets[0] <= n && forall r :: 0 <= r < |offsets| - 1 ==> RowInBounds(offsets, n, r)
  {
    var last := |offsets| - 1;
    if 0 <= offsets[0] && offsets[last] <= n && Increasing(offsets) {
      IncreasingFar(offsets, 0, last);
      forall r | 0 <= r < last ensures RowInBounds(offsets, n, r) {
        IncreasingFar(offsets, 0, r);
        IncreasingFar(offsets, r + 1, last);
      }
    }
    if forall r :: 0 <= r < last ==> RowInBounds(offsets, n, r) {
      forall r | 0 <= r < last ensures offsets[r] < offsets[r + 1] { assert RowInBounds(offsets, n, r); }
      if last > 0 { assert RowInBounds(offsets, n, 0) && RowInBounds(offsets, n, last - 1); }
    }
  }

  /** Position `p` of the columns holds a usable term and weight. */
  ghost predicate GoodAt(terms: seq<int>, weights: seq<Float>, p: int) {
    0 <= p < |terms| == |weights| && terms[p] >= 0 && GoodWeight(weights[p])
  }

  ghost predicate GoodThroughout(offsets: seq<int>, terms: seq<int>, weights: seq<Float>, r: nat) {
    r + 1 < |offsets| && forall p :: offsets[r] <= p < offsets[r + 1] ==> GoodAt(terms, weights, p)
  }

  lemma RowSlices(offsets: seq<int>, terms: seq<int>, weights: seq<Float>, r: nat)
    requires r + 1 < |offsets| && |terms| == |weights| && RowInBounds(offsets, |terms|, r)
    ensures RowGood(offsets, terms, weights, r) <==> AscendingRow(offsets, terms, r) && GoodThroughout(offsets, terms, weights, r)
  {
    var low, high := offsets[r], offsets[r + 1];
    var row := Zip(terms, weights)[low..high];
    assert forall i :: 0 <= i < |row| ==> row[i] == Element(terms[low + i], weights[low + i]);
    if GoodRow(row) {
      forall p | low <= p < high ensures GoodAt(terms, weights, p) { assert row[p - low].termId >= 0; }
      forall i, j | low <= i < j < high ensures terms[i] < terms[j] { assert row[i - low].termId < row[j - low].termId; }
    }
    if AscendingIn(terms, low, high) && GoodThroughout(offsets, terms, weights, r) {
      forall i | 0 <= i < |row| ensures row[i].termId >= 0 && GoodWeight(row[i].weight) { assert GoodAt(terms, weights, low + i); }
    }
  }

  lemma PositionsAreRows(offsets: seq<int>, terms: seq<int>, weights: seq<Float>)
    requires |offsets| > 0 && Increasing(offsets)
    ensures (forall p :: offsets[0] <= p < offsets[|offsets| - 1] ==> GoodAt(terms, weights, p))
      <==> forall r :: 0 <= r < |offsets| - 1 ==> GoodThroughout(offsets, terms, weights, r)
  {
    hide GoodAt;
    var last := |offsets| - 1;
    if forall r :: 0 <= r < last ==> GoodThroughout(offsets, terms, weights, r) {
      forall p | offsets[0] <= p < offsets[last] ensures GoodAt(terms, weights, p) {
        var r := RowAt(offsets, p, last);
        assert GoodThroughout(offsets, terms, weights, r);
      }
    }
    if forall p :: offsets[0] <= p < offsets[last] ==> GoodAt(terms, weights, p) {
      forall r | 0 <= r < last ensures GoodThroughout(offsets, terms, weights, r) { RowWithin(offsets, r); }
    }
  }

  /** The flattened conditions are the row-by-row ones. */
  lemma FlatIsRowByRow(offsets: seq<int>, terms: seq<int>, weights: seq<Float>)
    requires |offsets| > 0 && |terms| == |weights|
    requires 0 <= offsets[0] && offsets[|offsets| - 1] <= |terms| && Increasing(offsets)
    ensures GoodBatch(offsets, terms, weights) <==> (
      && (forall p :: offsets[0] <= p < offsets[|offsets| - 1] ==> GoodAt(terms, weights, p))
      && (forall p :: offsets[0] <= p < offsets[|offsets| - 1] - 1 && !Boundary(offsets, p - offsets[0]) ==> Rises(terms, p)))
  {
    hide RowGood, AscendingRow, GoodThroughout, GoodAt, Boundary;
    BoundsAreEnds(offsets, |terms|);
    NeighboursAreRows(offsets, terms);
    PositionsAreRows(offsets, terms, weights);
    forall r | 0 <= r < |offsets| - 1
      ensures RowGood(offsets, terms, weights, r) <==> AscendingRow(offsets, terms, r) && GoodThroughout(offsets, terms, weights, r)
    {
      RowSlices(offsets, terms, weights, r);
    }
  }

  /** The check inside `_validated_descriptor`: offsets first, then one comparison of all adjacent
      terms with the row boundaries masked out, then the weights. Accepts exactly the batches whose
      every row is non-empty, in bounds and accepted by the row-by-row validator. */
  method ValidateBatch(offsets: seq<int>, terms: seq<int>, weights: seq<Float>) returns (ok: bool)
    requires |offsets| > 0
    ensures ok <==> GoodBatch(offsets, terms, weights)
  {
    hide RowGood;
    var rows := |offsets| - 1;
    if |terms| != |weights| { return false; }
    BoundsAreEnds(offsets, |terms|);
    if offsets[0] < 0 || offsets[rows] > |terms| || !Increasing(offsets) { return false; }
    FlatIsRowByRow(offsets, terms, weights);
    IncreasingFar(offsets, 0, rows);
    hide GoodBatch, Boundary, Increasing, GoodWeight;
    var begin, end := offsets[0], offsets[rows];
    var activeTerms, activeWeights := terms[begin..end], weights[begin..end];
    var invalidOrder := InvalidOrder(offsets, activeTerms);
    if p :| 0 <= p < |activeTerms| && activeTerms[p] < 0 {
      assert !GoodAt(terms, weights, begin + p);
      return false;
    }
    if p :| 0 <= p < |invalidOrder| && invalidOrder[p] {
      assert !Rises(terms, begin + p) && !Boundary(offsets, (begin + p) - offsets[0]);
      return false;
    }
    if p :| 0 <= p < |activeWeights| && !GoodWeight(activeWeights[p]) {
      assert !GoodAt(terms, weights, begin + p);
      return false;
    }
    forall p | begin <= p < end ensures GoodAt(terms, weights, p) {
      assert activeTerms[p - begin] == terms[p] && activeWeights[p - begin] == weights[p];
    }
    forall p | begin <= p < end - 1 && !Boundary(offsets, p - offsets[0]) ensures Rises(terms, p) {
      assert !invalidOrder[p - begin];
      assert activeTerms[p - begin] == terms[p] && activeTerms[p - begin + 1] == terms[p + 1];
    }
    return true;
  }

  /** The comparison of adjacent active terms, with the last position of each row reset in place:
      adjacent values in different rows need not ascend. */
  method InvalidOrder(offsets: seq<int>, active: seq<int>) returns (mask: seq<bool>)
    requires |offsets| > 0 && Increasing(offsets) && offsets[|offsets| - 1] - offsets[0] == |active|
    ensures |mask| == if active == [] then 0 else |active| - 1
    ensures forall p :: 0 <= p < |mask| ==> (mask[p] <==> active[p + 1] <= active[p] && !Boundary(offsets, p))
  {
    hide Increasing;
    var n, rows, begin := |active|, |offsets| - 1, offsets[0];
    var invalid := new bool[if n == 0 then 0 else n - 1](i requires 0 <= i < n - 1 => active[i + 1] <= active[i]);
    var r := 1;
    while r < rows
      invariant 1 <= r && (rows > 0 ==> r <= rows)
      invariant forall p :: 0 <= p < n - 1 ==> (invalid[p] <==> active[p + 1] <= active[p] && !BoundaryBefore(offsets, p, r))
    {
      IncreasingFar(offsets, 0, r);
      IncreasingFar(offsets, r, rows);
      BoundaryStep(offsets, r);
      invalid[offsets[r] - begin - 1] := false;
      r := r + 1;
    }
    assert forall p :: BoundaryBefore(offsets, p, r) <==> Boundary(offsets, p);
    mask := invalid[..];
  }

  ghost predicate BoundaryBefore(offsets: seq<int>, p: int, s: nat) {
    exists r :: 0 < r < |offsets| - 1 && r < s && offsets[r] - offsets[0] - 1 == p
  }

  lemma BoundaryStep(offsets: seq<int>, s: nat)
    requires 0 < s < |offsets| - 1
    ensures forall p :: BoundaryBefore(offsets, p, s + 1) <==> BoundaryBefore(offsets, p, s) || p == offsets[s] - offsets[0] - 1
  {
    forall p ensures BoundaryBefore(offsets, p, s + 1) <==> BoundaryBefore(offsets, p, s) || p == offsets[s] - offsets[0] - 1 {
      if BoundaryBefore(offsets, p, s + 1) && p != offsets[s] - offsets[0] - 1 {
        var r :| 0 < r < |offsets| - 1 && r < s + 1 && offsets[r] - offsets[0] - 1 == p;
        assert r < s;
      }
      if BoundaryBefore(offsets, p, s) {
        var r :| 0 < r < |offsets| - 1 && r < s && offsets[r] - offsets[0] - 1 == p;
        assert r < s + 1;
      }
    }
  }
}
