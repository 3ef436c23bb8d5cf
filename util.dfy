/**
 * The dense validators of nxrate/util.py: the same invariants stated on a
 * square matrix Q (a list of rows) and a vector distn. The source writes
 * them as whole-array numpy expressions; the operations used are modelled
 * first, then the checkers, whose contracts say what each expression means
 * entry by entry.
 */
module Util {
  import opened Closeness
  import opened SeqSums
  import opened Outcomes

  type Vector = seq<real>
  type Matrix = seq<seq<real>>

  datatype DenseError =
    | EntryOutOfRange
    | SumNotOne
    | RowSumNotZero
    | PositiveDiagonal
    | NegativeOffDiagonal
    | NotAtEquilibrium
    | NotDetailedBalance

  type DenseVerdict = Outcome<DenseError>

  /** An n x n matrix. */
  predicate IsSquare(Q: Matrix)
  {
    forall i :: 0 <= i < |Q| ==> |Q[i]| == |Q|
  }

  // ---------------------------------------------------------------------
  // numpy operations

  /** np.sum(Q, axis=1). */
  function RowSums(Q: Matrix): (r: Vector)
    ensures |r| == |Q|
  {
    seq(|Q|, i requires 0 <= i < |Q| => Sum(Q[i]))
  }

  /** np.diag(Q) of a matrix: its diagonal. */
  function Diag(Q: Matrix): (d: Vector)
    requires IsSquare(Q)
    ensures |d| == |Q|
  {
    seq(|Q|, i requires 0 <= i < |Q| => Q[i][i])
  }

  /** np.diag(d) of a vector: the diagonal matrix with d on its diagonal. */
  function DiagMatrix(d: Vector): (D: Matrix)
    ensures |D| == |d| && IsSquare(D)
  {
    seq(|d|, i requires 0 <= i < |d| =>
      seq(|d|, j requires 0 <= j < |d| => if i == j then d[i] else 0.0))
  }

  /** A - B for two n x n matrices. */
  function Subtract(A: Matrix, B: Matrix): (C: Matrix)
    requires IsSquare(A) && IsSquare(B) && |A| == |B|
    ensures |C| == |A| && IsSquare(C)
  {
    seq(|A|, i requires 0 <= i < |A| =>
      seq(|A|, j requires 0 <= j < |A| => A[i][j] - B[i][j]))
  }

  /** A.T */
  function Transpose(A: Matrix): (T: Matrix)
    requires IsSquare(A)
    ensures |T| == |A| && IsSquare(T)
  {
    seq(|A|, i requires 0 <= i < |A| =>
      seq(|A|, j requires 0 <= j < |A| => A[j][i]))
  }

  /** A * v with numpy broadcasting: column j of A is multiplied by v[j]. */
  function ScaleColumns(A: Matrix, v: Vector): (B: Matrix)
    requires IsSquare(A) && |v| == |A|
    ensures |B| == |A| && IsSquare(B)
  {
    seq(|A|, i requires 0 <= i < |A| =>
      seq(|A|, j requires 0 <= j < |A| => A[i][j] * v[j]))
  }

  /** The products v[i] * Q[i][j] down column j. */
  function ColumnTerms(v: Vector, Q: Matrix, j: nat): (t: Vector)
    requires IsSquare(Q) && |v| == |Q| && j < |Q|
    ensures |t| == |v|
  {
    seq(|v|, i requires 0 <= i < |v| => v[i] * Q[i][j])
  }

  /** np.dot(v, Q): the row vector v times the matrix Q. */
  function Dot(v: Vector, Q: Matrix): (r: Vector)
    requires IsSquare(Q) && |v| == |Q|
    ensures |r| == |Q|
  {
    seq(|Q|, j requires 0 <= j < |Q| => Sum(ColumnTerms(v, Q, j)))
  }

  /** np.any(v < c) */
  predicate AnyBelow(v: Vector, c: real)
  {
    exists i :: 0 <= i < |v| && v[i] < c
  }

  /** np.any(c < v) */
  predicate AnyAbove(v: Vector, c: real)
  {
    exists i :: 0 <= i < |v| && c < v[i]
  }

  /** np.any(A < c) */
  predicate AnyEntryBelow(A: Matrix, c: real)
  {
    exists i :: 0 <= i < |A| && AnyBelow(A[i], c)
  }

  /** np.allclose(v, c) for a vector and a scalar. */
  predicate AllCloseTo(v: Vector, c: real)
  {
    forall i :: 0 <= i < |v| ==> Close(v[i], c)
  }

  /** np.allclose(A, B) for two n x n matrices. */
  predicate AllCloseMatrices(A: Matrix, B: Matrix)
    requires IsSquare(A) && IsSquare(B) && |A| == |B|
  {
    forall i, j :: 0 <= i < |A| && 0 <= j < |A| ==> Close(A[i][j], B[i][j])
  }

  // ---------------------------------------------------------------------
  // Index-level statements of the invariants

  /** Every entry in [0, 1]. */
  predicate EntriesInUnitRange(v: Vector)
  {
    forall i :: 0 <= i < |v| ==> 0.0 <= v[i] <= 1.0
  }

  predicate RowsSumCloseToZero(Q: Matrix)
  {
    forall i :: 0 <= i < |Q| ==> Close(Sum(Q[i]), 0.0)
  }

  predicate DiagonalNonPositive(Q: Matrix)
    requires IsSquare(Q)
  {
    forall i :: 0 <= i < |Q| ==> Q[i][i] <= 0.0
  }

  predicate OffDiagonalNonNegative(Q: Matrix)
    requires IsSquare(Q)
  {
    forall i, j :: 0 <= i < |Q| && 0 <= j < |Q| && i != j ==> Q[i][j] >= 0.0
  }

  // ---------------------------------------------------------------------
  // The checkers

  /** assert_stochastic_vector: the range of every entry first, then the sum. */
  function AssertStochasticVector(v: Vector): (r: DenseVerdict)
    ensures r == Fail(EntryOutOfRange) <==> exists i :: 0 <= i < |v| && (v[i] < 0.0 || v[i] > 1.0)
    ensures r == Fail(SumNotOne) <==> EntriesInUnitRange(v) && !Close(Sum(v), 1.0)
    ensures r == Pass <==> EntriesInUnitRange(v) && Close(Sum(v), 1.0)
    ensures v == [] ==> r == Fail(SumNotOne)
  {
    if AnyBelow(v, 0.0) || AnyAbove(v, 1.0) then Fail(EntryOutOfRange)
    else if !Close(Sum(v), 1.0) then Fail(SumNotOne)
    else Pass
  }

  /** Q - diag(diag(Q)) has an entry below c <= 0 iff some off-diagonal entry of Q is below c. */
  lemma OffDiagonalBelow(Q: Matrix, c: real)
    requires IsSquare(Q) && c <= 0.0
    ensures AnyEntryBelow(Subtract(Q, DiagMatrix(Diag(Q))), c) <==>
              exists i, j :: 0 <= i < |Q| && 0 <= j < |Q| && i != j && Q[i][j] < c
  {
    var offDiagonal := Subtract(Q, DiagMatrix(Diag(Q)));
    if AnyEntryBelow(offDiagonal, c) {
      var i :| 0 <= i < |Q| && AnyBelow(offDiagonal[i], c);
      var j :| 0 <= j < |Q| && offDiagonal[i][j] < c;
      assert i != j && Q[i][j] < c;
    }
    if exists i, j :: 0 <= i < |Q| && 0 <= j < |Q| && i != j && Q[i][j] < c {
      var i, j :| 0 <= i < |Q| && 0 <= j < |Q| && i != j && Q[i][j] < c;
      assert offDiagonal[i][j] < c;
    }
  }

  /**
   * assert_rate_matrix: rows summing to zero first, then a non-positive
   * diagonal, then non-negative entries of Q - diag(diag(Q)).
   */
  function AssertRateMatrix(Q: Matrix): (r: DenseVerdict)
    requires IsSquare(Q)
    ensures r == Fail(RowSumNotZero) <==> !RowsSumCloseToZero(Q)
    ensures r == Fail(PositiveDiagonal) <==>
              RowsSumCloseToZero(Q) && exists i :: 0 <= i < |Q| && Q[i][i] > 0.0
    ensures r == Fail(NegativeOffDiagonal) <==>
              RowsSumCloseToZero(Q) && DiagonalNonPositive(Q) &&
              exists i, j :: 0 <= i < |Q| && 0 <= j < |Q| && i != j && Q[i][j] < 0.0
    ensures r == Pass <==>
              RowsSumCloseToZero(Q) && DiagonalNonPositive(Q) && OffDiagonalNonNegative(Q)
  {
    var offDiagonal := Subtract(Q, DiagMatrix(Diag(Q)));
    OffDiagonalBelow(Q, 0.0);
    assert forall i :: 0 <= i < |Q| ==> RowSums(Q)[i] == Sum(Q[i]) && Diag(Q)[i] == Q[i][i];
    if !AllCloseTo(RowSums(Q), 0.0) then Fail(RowSumNotZero)
    else if AnyAbove(Diag(Q), 0.0) then Fail(PositiveDiagonal)
    else if AnyEntryBelow(offDiagonal, 0.0) then Fail(NegativeOffDiagonal)
    else Pass
  }

  /** assert_equilibrium: every entry of distn . Q is close to 0. */
  function AssertEquilibrium(Q: Matrix, distn: Vector): (r: DenseVerdict)
    requires IsSquare(Q) && |distn| == |Q|
    ensures r == Pass || r == Fail(NotAtEquilibrium)
    ensures r == Pass <==>
              forall j :: 0 <= j < |Q| ==> Close(Sum(ColumnTerms(distn, Q, j)), 0.0)
  {
    assert forall j :: 0 <= j < |Q| ==> Dot(distn, Q)[j] == Sum(ColumnTerms(distn, Q, j));
    if !AllCloseTo(Dot(distn, Q), 0.0) then Fail(NotAtEquilibrium) else Pass
  }

  /** The flow matrix S = (Q.T * distn).T of assert_detailed_balance. */
  function FlowMatrix(Q: Matrix, distn: Vector): (S: Matrix)
    requires IsSquare(Q) && |distn| == |Q|
    ensures |S| == |Q| && IsSquare(S)
    ensures forall i, j :: 0 <= i < |Q| && 0 <= j < |Q| ==> S[i][j] == distn[i] * Q[i][j]
  {
    Transpose(ScaleColumns(Transpose(Q), distn))
  }

  /**
   * assert_detailed_balance: S is close to its transpose. Only off-diagonal
   * pairs can fail, in both orientations.
   */
  function AssertDetailedBalance(Q: Matrix, distn: Vector): (r: DenseVerdict)
    requires IsSquare(Q) && |distn| == |Q|
    ensures r == Pass || r == Fail(NotDetailedBalance)
    ensures r == Pass <==>
              forall i, j :: 0 <= i < |Q| && 0 <= j < |Q| && i != j ==>
                Close(distn[i] * Q[i][j], distn[j] * Q[j][i])
  {
    var S := FlowMatrix(Q, distn);
    assert forall i :: 0 <= i < |Q| ==> Close(S[i][i], S[i][i]) by {
      forall i | 0 <= i < |Q| ensures Close(S[i][i], S[i][i]) { CloseSelf(S[i][i]); }
    }
    if !AllCloseMatrices(S, Transpose(S)) then Fail(NotDetailedBalance) else Pass
  }
}
