/** Sums of sequences of reals (numpy's np.sum on a vector). */
module SeqSums {

  function Sum(v: seq<real>): (s: real)
  {
    if v == [] then 0.0 else v[0] + Sum(v[1..])
  }

  /** Replacing one entry changes the sum by the difference. */
  lemma {:induction false} SumUpdate(v: seq<real>, i: nat, x: real)
    requires i < |v|
    ensures Sum(v[i := x]) == Sum(v) - v[i] + x
  {
    if i > 0 {
      assert v[i := x][1..] == v[1..][i - 1 := x];
      SumUpdate(v[1..], i - 1, x);
    }
  }

  /** Scaling every entry by c scales the sum by c. */
  lemma {:induction false} SumScale(c: real, v: seq<real>, w: seq<real>)
    requires |w| == |v|
    requires forall i :: 0 <= i < |v| ==> w[i] == c * v[i]
    ensures Sum(w) == c * Sum(v)
  {
    if v != [] {
      SumScale(c, v[1..], w[1..]);
    }
  }

  /** A sum of non-negative entries is non-negative. */
  lemma {:induction false} SumNonNegative(v: seq<real>)
    requires forall i :: 0 <= i < |v| ==> v[i] >= 0.0
    ensures Sum(v) >= 0.0
  {
    if v != [] {
      SumNonNegative(v[1..]);
    }
  }

  /** A sum of |v| copies of c. */
  lemma {:induction false} SumConst(v: seq<real>, c: real)
    requires forall i :: 0 <= i < |v| ==> v[i] == c
    ensures Sum(v) == |v| as real * c
  {
    if v != [] {
      SumConst(v[1..], c);
    }
  }
}
