/**
 * Properties of the dense validators of module Util: the uniform vector is
 * stochastic, the off-diagonal test cannot see the diagonal, and exact
 * detailed balance with rows summing to zero implies equilibrium.
 */
module UtilProperties {
  import opened Closeness
  import opened SeqSums
  import opened Outcomes
  import opened Util

  /** The uniform vector of length n; it passes assert_stochastic_vector. */
  function UniformVector(n: nat): (v: Vector)
    requires n > 0
    ensures |v| == n
    ensures AssertStochasticVector(v) == Pass
  {
    var v := seq(n, i => 1.0 / n as real);
    SumConst(v, 1.0 / n as real);
    assert Sum(v) == n as real * (1.0 / n as real) == 1.0;
    CloseSelf(1.0);
    v
  }

  /**
   * Q - diag(diag(Q)) does not depend on the diagonal of Q: two matrices that
   * agree off the diagonal have the same off-diagonal part.
   */
  lemma OffDiagonalPartIgnoresDiagonal(Q: Matrix, Q': Matrix)
    requires IsSquare(Q) && IsSquare(Q') && |Q| == |Q'|
    requires forall i, j :: 0 <= i < |Q| && 0 <= j < |Q| && i != j ==> Q[i][j] == Q'[i][j]
    ensures Subtract(Q, DiagMatrix(Diag(Q))) == Subtract(Q', DiagMatrix(Diag(Q')))
  {
    var A, B := Subtract(Q, DiagMatrix(Diag(Q))), Subtract(Q', DiagMatrix(Diag(Q')));
    forall i | 0 <= i < |Q| ensures A[i] == B[i] {
      forall j | 0 <= j < |Q| ensures A[i][j] == B[i][j] {
        if i == j {
          assert A[i][j] == 0.0 == B[i][j];
        }
      }
    }
  }

  /** Entry-wise detailed balance with no tolerance. */
  predicate ExactlyBalanced(Q: Matrix, distn: Vector)
    requires IsSquare(Q) && |distn| == |Q|
  {
    forall i, j :: 0 <= i < |Q| && 0 <= j < |Q| ==> distn[i] * Q[i][j] == distn[j] * Q[j][i]
  }

  /**
   * With exact comparison and rows summing exactly to zero, detailed balance
   * implies equilibrium: column j of distn . Q is distn[j] times row j's sum.
   */
  lemma ExactDetailedBalanceImpliesEquilibrium(Q: Matrix, distn: Vector)
    requires IsSquare(Q) && |distn| == |Q|
    requires forall i :: 0 <= i < |Q| ==> Sum(Q[i]) == 0.0
    requires ExactlyBalanced(Q, distn)
    ensures AssertDetailedBalance(Q, distn) == Pass
    ensures AssertEquilibrium(Q, distn) == Pass
  {
    forall i, j | 0 <= i < |Q| && 0 <= j < |Q| && i != j
      ensures Close(distn[i] * Q[i][j], distn[j] * Q[j][i])
    {
      CloseSelf(distn[j] * Q[j][i]);
    }
    forall j | 0 <= j < |Q| ensures Close(Sum(ColumnTerms(distn, Q, j)), 0.0) {
      SumScale(distn[j], Q[j], ColumnTerms(distn, Q, j));
      CloseSelf(0.0);
    }
  }

  /** A symmetric matrix whose rows sum exactly to zero, under the uniform vector, passes both checks. */
  lemma SymmetricUniformPasses(Q: Matrix)
    requires IsSquare(Q) && |Q| > 0
    requires forall i, j :: 0 <= i < |Q| && 0 <= j < |Q| ==> Q[i][j] == Q[j][i]
    requires forall i :: 0 <= i < |Q| ==> Sum(Q[i]) == 0.0
    ensures AssertStochasticVector(UniformVector(|Q|)) == Pass
    ensures AssertDetailedBalance(Q, UniformVector(|Q|)) == Pass
    ensures AssertEquilibrium(Q, UniformVector(|Q|)) == Pass
  {
    ExactDetailedBalanceImpliesEquilibrium(Q, UniformVector(|Q|));
  }
}
