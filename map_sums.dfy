/**
 * Sums of real values stored in a finite map, over a set of its keys.
 * A sum has no order, so it is defined by picking any key; SumOverRemove
 * shows the result does not depend on which key is picked.
 */
module MapSums {

  /** Some element of a non-empty set. */
  ghost function Pick<K>(ks: set<K>): (k: K)
    requires ks != {}
    ensures k in ks
  {
    var k :| k in ks; k
  }

  /** The sum of m[k] over the keys k in ks. */
  ghost function SumOver<K>(m: map<K, real>, ks: set<K>): (s: real)
    requires ks <= m.Keys
    decreases ks
  {
    if ks == {} then 0.0
    else
      var k := Pick(ks);
      m[k] + SumOver(m, ks - {k})
  }

  /** The sum of all values of m. */
  ghost function Total<K>(m: map<K, real>): (t: real)
  {
    SumOver(m, m.Keys)
  }

  /** Any key may be taken out of a sum first. */
  lemma {:induction false} SumOverRemove<K>(m: map<K, real>, ks: set<K>, k: K)
    requires ks <= m.Keys && k in ks
    ensures SumOver(m, ks) == m[k] + SumOver(m, ks - {k})
    decreases ks
  {
    var j := Pick(ks);
    if j != k {
      SumOverRemove(m, ks - {j}, k);
      SumOverRemove(m, ks - {k}, j);
      assert ks - {j} - {k} == ks - {k} - {j};
    }
  }

  /** A sum over one key is that key's value. */
  lemma SumOverSingleton<K>(m: map<K, real>, k: K)
    requires k in m
    ensures SumOver(m, {k}) == m[k]
  {
    SumOverRemove(m, {k}, k);
    assert {k} - {k} == {};
  }

  /** A sum over two disjoint key sets is the sum of the two sums. */
  lemma {:induction false} SumOverUnion<K>(m: map<K, real>, a: set<K>, b: set<K>)
    requires a <= m.Keys && b <= m.Keys && a !! b
    ensures SumOver(m, a + b) == SumOver(m, a) + SumOver(m, b)
    decreases a
  {
    if a == {} {
      assert a + b == b;
    } else {
      var k :| k in a;
      SumOverRemove(m, a, k);
      SumOverRemove(m, a + b, k);
      assert (a + b) - {k} == (a - {k}) + b;
      SumOverUnion(m, a - {k}, b);
    }
  }

  /** A sum of |ks| copies of the same value c. */
  lemma {:induction false} SumOverConst<K>(m: map<K, real>, ks: set<K>, c: real)
    requires ks <= m.Keys
    requires forall k :: k in ks ==> m[k] == c
    ensures SumOver(m, ks) == |ks| as real * c
    decreases ks
  {
    if ks != {} {
      var k :| k in ks;
      SumOverRemove(m, ks, k);
      SumOverConst(m, ks - {k}, c);
    }
  }

  /** A sum of non-negative values is non-negative. */
  lemma {:induction false} SumOverNonNegative<K>(m: map<K, real>, ks: set<K>)
    requires ks <= m.Keys
    requires forall k :: k in ks ==> m[k] >= 0.0
    ensures SumOver(m, ks) >= 0.0
    decreases ks
  {
    if ks != {} {
      var k :| k in ks;
      SumOverRemove(m, ks, k);
      SumOverNonNegative(m, ks - {k});
    }
  }

  /** With non-negative values, a sum over some of the keys lies between 0 and the total. */
  lemma SumOverSubset<K>(m: map<K, real>, ks: set<K>)
    requires ks <= m.Keys
    requires forall k :: k in m ==> m[k] >= 0.0
    ensures 0.0 <= SumOver(m, ks) <= Total(m)
  {
    var rest := m.Keys - ks;
    assert ks + rest == m.Keys;
    SumOverUnion(m, ks, rest);
    SumOverNonNegative(m, ks);
    SumOverNonNegative(m, rest);
  }
}
