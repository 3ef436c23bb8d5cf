/**
 * The graph validators of module Testing against the dense validators of
 * module Util. A graph over an ordered list of distinct states ks becomes a
 * vector and a generator matrix: off-diagonal entry (i, j) is the rate from
 * ks[i] to ks[j] (0 when there is no edge) and the diagonal makes every row
 * sum to zero.
 */
module Bridge {
  import opened Closeness
  import opened MapSums
  import opened SeqSums
  import opened Outcomes
  import opened Testing
  import Util

  /** No state is listed twice. */
  ghost predicate Distinct<S>(ks: seq<S>)
  {
    forall i, j :: 0 <= i < j < |ks| ==> ks[i] != ks[j]
  }

  ghost function Elements<S>(ks: seq<S>): (es: set<S>)
  {
    set k | k in ks
  }

  /** The probabilities of d listed in the order ks. */
  ghost function VectorOf<S>(d: Distn<S>, ks: seq<S>): (v: Util.Vector)
    requires forall i :: 0 <= i < |ks| ==> ks[i] in d
    ensures |v| == |ks|
  {
    seq(|ks|, i requires 0 <= i < |ks| => d[ks[i]])
  }

  /** The sum of a map over distinct listed keys is the sum of the listed vector. */
  lemma {:induction false} SumOverListed<S>(d: Distn<S>, ks: seq<S>)
    requires Distinct(ks)
    requires forall i :: 0 <= i < |ks| ==> ks[i] in d
    ensures Elements(ks) <= d.Keys
    ensures SumOver(d, Elements(ks)) == Sum(VectorOf(d, ks))
  {
    if ks == [] {
      assert Elements(ks) == {};
    } else {
      var rest := ks[1..];
      assert Elements(ks) - {ks[0]} == Elements(rest) by {
        forall k | k in Elements(rest) ensures k != ks[0] {
          var i :| 0 <= i < |rest| && rest[i] == k;
          assert ks[i + 1] == k;
        }
        assert forall k :: k in Elements(ks) && k != ks[0] ==> k in rest;
      }
      SumOverRemove(d, Elements(ks), ks[0]);
      SumOverListed(d, rest);
      assert VectorOf(d, ks)[1..] == VectorOf(d, rest);
    }
  }

  /**
   * assert_distn on a map and assert_stochastic_vector on the same
   * probabilities listed as a vector agree: both pass or both fail, an entry
   * out of [0, 1] is a range error in both, and a bad total is a sum error in
   * both. The one difference is the empty distribution: an empty-support
   * error in one, a sum error (the empty sum is 0) in the other.
   */
  lemma DistnMatchesStochasticVector<S>(d: Distn<S>, ks: seq<S>)
    requires Distinct(ks)
    requires forall i :: 0 <= i < |ks| ==> ks[i] in d
    requires forall k :: k in d ==> k in ks
    ensures AssertDistn(d) == Pass <==> Util.AssertStochasticVector(VectorOf(d, ks)) == Pass
    ensures (AssertDistn(d).Fail? && AssertDistn(d).error.LocalDistn?) <==>
              Util.AssertStochasticVector(VectorOf(d, ks)) == Fail(Util.EntryOutOfRange)
    ensures AssertDistn(d) == Fail(GlobalDistn) <==>
              d != map[] && Util.AssertStochasticVector(VectorOf(d, ks)) == Fail(Util.SumNotOne)
    ensures d == map[] ==>
              AssertDistn(d) == Fail(EmptySupport) &&
              Util.AssertStochasticVector(VectorOf(d, ks)) == Fail(Util.SumNotOne)
  {
    var v := VectorOf(d, ks);
    SumOverListed(d, ks);
    assert Elements(ks) == d.Keys;
    assert InUnitRange(d) <==> Util.EntriesInUnitRange(v) by {
      if InUnitRange(d) {
        forall i | 0 <= i < |v| ensures 0.0 <= v[i] <= 1.0 {
          assert ks[i] in d;
        }
      }
      if Util.EntriesInUnitRange(v) {
        forall k | k in d ensures 0.0 <= d[k] <= 1.0 {
          var i :| 0 <= i < |ks| && ks[i] == k;
          assert v[i] == d[k];
        }
      }
    }
  }

  // ---------------------------------------------------------------------
  // Rate matrices

  /** The rate from a to b: the edge weight, or 0 without an edge. */
  ghost function Rate<S>(Q: Graph<S>, a: S, b: S): (q: real)
  {
    if (a, b) in Q then Q[(a, b)] else 0.0
  }

  /** Row i of the generator with its diagonal entry set to 0. */
  ghost function OffRow<S>(Q: Graph<S>, ks: seq<S>, i: nat): (row: Util.Vector)
    requires i < |ks|
    ensures |row| == |ks|
  {
    seq(|ks|, j requires 0 <= j < |ks| => if j == i then 0.0 else Rate(Q, ks[i], ks[j]))
  }

  /** The dense generator of Q over the states ks: each diagonal entry is minus its row's off-diagonal sum. */
  ghost function DenseOf<S>(Q: Graph<S>, ks: seq<S>): (D: Util.Matrix)
    ensures |D| == |ks| && Util.IsSquare(D)
    ensures forall i, j :: 0 <= i < |ks| && 0 <= j < |ks| ==>
              D[i][j] == if i == j then -Sum(OffRow(Q, ks, i)) else Rate(Q, ks[i], ks[j])
  {
    seq(|ks|, i requires 0 <= i < |ks| => OffRow(Q, ks, i)[i := -Sum(OffRow(Q, ks, i))])
  }

  /** Row i of the dense generator sums exactly to zero. */
  lemma DenseRowSumsToZero<S>(Q: Graph<S>, ks: seq<S>, i: nat)
    requires i < |ks|
    ensures Sum(DenseOf(Q, ks)[i]) == 0.0
  {
    var off := OffRow(Q, ks, i);
    var x := -Sum(off);
    SumUpdate(off, i, x);
    assert off[i] == 0.0;
    assert Sum(off[i := x]) == 0.0;
    assert DenseOf(Q, ks)[i] == off[i := x];
  }

  /** The diagonal of the dense generator is non-positive when no rate is negative. */
  lemma DenseDiagonalNonPositive<S>(Q: Graph<S>, ks: seq<S>, i: nat)
    requires i < |ks|
    requires forall e :: e in Q ==> Q[e] >= 0.0
    ensures DenseOf(Q, ks)[i][i] <= 0.0
  {
    SumNonNegative(OffRow(Q, ks, i));
  }

  /** Every edge of Q joins two distinct listed states. */
  ghost predicate ListedWithoutSelfLoops<S>(Q: Graph<S>, ks: seq<S>)
  {
    forall e :: e in Q ==> e.0 in ks && e.1 in ks && e.0 != e.1
  }

  /**
   * Without self-loops, and with every edge between listed states, the graph
   * rate-matrix check passes iff the dense check passes on the generator; the
   * dense row-sum test never fails there.
   */
  lemma RateMatrixMatchesDense<S>(Q: Graph<S>, ks: seq<S>)
    requires ListedWithoutSelfLoops(Q, ks)
    ensures Util.AssertRateMatrix(DenseOf(Q, ks)) != Fail(Util.RowSumNotZero)
    ensures AssertRateMatrix(Q) == Pass <==> Util.AssertRateMatrix(DenseOf(Q, ks)) == Pass
  {
    DenseRowsCloseToZero(Q, ks);
    if IsRateGraph(Q) {
      DenseSignsOfRateGraph(Q, ks);
    } else {
      DenseNegativeEntry(Q, ks);
    }
  }

  lemma DenseRowsCloseToZero<S>(Q: Graph<S>, ks: seq<S>)
    ensures Util.RowsSumCloseToZero(DenseOf(Q, ks))
  {
    var D := DenseOf(Q, ks);
    forall i | 0 <= i < |D| ensures Close(Sum(D[i]), 0.0) {
      DenseRowSumsToZero(Q, ks, i);
      CloseSelf(0.0);
    }
  }

  /** A rate graph has a dense generator with the signs of a rate matrix. */
  lemma DenseSignsOfRateGraph<S>(Q: Graph<S>, ks: seq<S>)
    requires IsRateGraph(Q)
    ensures Util.DiagonalNonPositive(DenseOf(Q, ks)) && Util.OffDiagonalNonNegative(DenseOf(Q, ks))
  {
    var D := DenseOf(Q, ks);
    forall i | 0 <= i < |D| ensures D[i][i] <= 0.0 {
      DenseDiagonalNonPositive(Q, ks, i);
    }
  }

  /** A negative rate between listed states is a negative off-diagonal entry. */
  lemma DenseNegativeEntry<S>(Q: Graph<S>, ks: seq<S>)
    requires ListedWithoutSelfLoops(Q, ks)
    requires !IsRateGraph(Q)
    ensures !Util.OffDiagonalNonNegative(DenseOf(Q, ks))
  {
    var D := DenseOf(Q, ks);
    var e :| e in Q && !(e.0 != e.1 && Q[e] >= 0.0);
    var i :| 0 <= i < |ks| && ks[i] == e.0;
    var j :| 0 <= j < |ks| && ks[j] == e.1;
    assert i != j && D[i][j] == Q[e] < 0.0;
  }
}
