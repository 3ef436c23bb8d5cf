/**
 * Properties relating the graph checkers of module Testing: the uniform
 * distribution is valid, exact detailed balance implies equilibrium, and a
 * symmetric rate matrix under the uniform distribution passes both balance
 * checks.
 */
module TestingProperties {
  import opened Closeness
  import opened MapSums
  import opened Outcomes
  import opened Testing

  // ---------------------------------------------------------------------
  // The uniform distribution

  /** The uniform distribution over a set of states. */
  ghost function Uniform<S>(states: set<S>): (d: Distn<S>)
    requires states != {}
    ensures d.Keys == states
    ensures forall s :: s in d ==> d[s] == 1.0 / |states| as real
    ensures IsDistn(d)
  {
    var n := |states| as real;
    var d := map s | s in states :: 1.0 / n;
    assert d.Keys == states;
    assert n >= 1.0;
    SumOverConst(d, d.Keys, 1.0 / n);
    assert Total(d) == n * (1.0 / n) == 1.0;
    CloseSelf(1.0);
    d
  }

  /** Under the uniform distribution, the flow graph is Q with every rate divided by the number of states. */
  lemma UniformFlow<S>(Q: Graph<S>, states: set<S>)
    requires states != {}
    requires forall e :: e in Q ==> e.0 in states
    ensures FlowGraph(Q, Uniform(states)).Keys == Q.Keys
    ensures forall e :: e in Q ==> FlowGraph(Q, Uniform(states))[e] == Q[e] / |states| as real
  {
    var u := Uniform(states);
    var n := |states| as real;
    forall e | e in Q ensures FlowGraph(Q, u)[e] == Q[e] / n {
      assert u[e.0] == 1.0 / n;
    }
  }

  // ---------------------------------------------------------------------
  // Exact detailed balance

  /** Every flow edge has a reverse flow edge carrying exactly the same flow. */
  ghost predicate ExactlySymmetric<S>(R: Graph<S>)
  {
    forall e :: e in R ==> Swap(e) in R && R[Swap(e)] == R[e]
  }

  /** Reversing every edge of a set with mirrored values preserves the sum. */
  lemma {:induction false} SumOverMirror<S>(R: Graph<S>, es: set<(S, S)>)
    requires es <= R.Keys
    requires forall e :: e in es ==> Swap(e) in R && R[Swap(e)] == R[e]
    ensures Mirror(es) <= R.Keys
    ensures SumOver(R, Mirror(es)) == SumOver(R, es)
    decreases es
  {
    if es == {} {
      assert Mirror(es) == {};
    } else {
      var k := Pick(es);
      SumOverRemove(R, es, k);
      SumOverMirror(R, es - {k});
      assert Mirror(es) == Mirror(es - {k}) + {Swap(k)};
      assert Swap(k) !in Mirror(es - {k}) by {
        MirrorMember(es - {k}, Swap(k));
        assert Swap(Swap(k)) == k;
      }
      assert Mirror(es) - {Swap(k)} == Mirror(es - {k});
      SumOverRemove(R, Mirror(es), Swap(k));
    }
  }

  /** Under exact symmetry the flow into each state is exactly the flow out of it. */
  lemma ExactSymmetryBalances<S>(R: Graph<S>)
    requires ExactlySymmetric(R)
    ensures Sources(R) == Targets(R)
    ensures forall v :: v in Sources(R) ==> SumOver(R, InEdges(R, v)) == SumOver(R, OutEdges(R, v))
    ensures Balanced(R) && PairwiseBalanced(R)
  {
    forall v | v in Sources(R) ensures v in Targets(R) {
      var e :| e in R && e.0 == v;
      assert Swap(e) in R && Swap(e).1 == v;
    }
    forall v | v in Targets(R) ensures v in Sources(R) {
      var e :| e in R && e.1 == v;
      assert Swap(e) in R && Swap(e).0 == v;
    }
    forall v | v in Sources(R)
      ensures SumOver(R, InEdges(R, v)) == SumOver(R, OutEdges(R, v))
    {
      var outs := OutEdges(R, v);
      forall e | e in InEdges(R, v) ensures e in Mirror(outs) {
        MirrorMember(outs, e);
      }
      forall e | e in Mirror(outs) ensures e in InEdges(R, v) {
        MirrorMember(outs, e);
        assert Swap(Swap(e)) == e;
      }
      assert InEdges(R, v) == Mirror(outs);
      SumOverMirror(R, outs);
    }
    forall v | v in Sources(R)
      ensures Close(SumOver(R, InEdges(R, v)), SumOver(R, OutEdges(R, v)))
    {
      CloseSelf(SumOver(R, OutEdges(R, v)));
    }
    forall e | e in R ensures Close(R[e], R[Swap(e)]) {
      CloseSelf(R[e]);
    }
  }

  /**
   * With exact comparison, detailed balance implies equilibrium: a flow graph
   * that is exactly symmetric passes both checks whenever the inputs do.
   */
  lemma ExactDetailedBalanceImpliesEquilibrium<S>(Q: Graph<S>, distn: Distn<S>, checkInputs: bool)
    requires ExactlySymmetric(FlowGraph(Q, distn))
    ensures AssertDetailedBalance(Q, distn, checkInputs) == CheckInputs(Q, distn, checkInputs)
    ensures AssertEquilibrium(Q, distn, checkInputs) == CheckInputs(Q, distn, checkInputs)
  {
    ExactSymmetryBalances(FlowGraph(Q, distn));
  }

  /**
   * Passing detailed balance rules out the structural equilibrium error:
   * equilibrium then either passes or fails on a magnitude.
   */
  lemma DetailedBalanceHasNoOneSidedStates<S>(Q: Graph<S>, distn: Distn<S>, checkInputs: bool)
    requires AssertDetailedBalance(Q, distn, checkInputs) == Pass
    ensures AssertEquilibrium(Q, distn, checkInputs) == Pass ||
            AssertEquilibrium(Q, distn, checkInputs) == Fail(WeightedEquilibrium)
  {
    var R := FlowGraph(Q, distn);
    assert PairwiseBalanced(R);
    forall v | v in Sources(R) ensures v in Targets(R) {
      var e :| e in R && e.0 == v;
      assert Swap(e) in R && Swap(e).1 == v;
    }
    forall v | v in Targets(R) ensures v in Sources(R) {
      var e :| e in R && e.1 == v;
      assert Swap(e) in R && Swap(e).0 == v;
    }
  }

  // ---------------------------------------------------------------------
  // Symmetric rate matrices

  /** Q(a, b) == Q(b, a) for every edge, with the reverse edge present. */
  ghost predicate Symmetric<S>(Q: Graph<S>)
  {
    forall e :: e in Q ==> Swap(e) in Q && Q[Swap(e)] == Q[e]
  }

  /** Under the uniform distribution, a symmetric rate matrix has a symmetric flow graph. */
  lemma UniformFlowSymmetric<S>(Q: Graph<S>, states: set<S>)
    requires states != {}
    requires forall e :: e in Q ==> e.0 in states && e.1 in states
    requires Symmetric(Q)
    ensures ExactlySymmetric(FlowGraph(Q, Uniform(states)))
  {
    var u := Uniform(states);
    var R := FlowGraph(Q, u);
    forall e | e in R ensures Swap(e) in R && R[Swap(e)] == R[e] {
      assert Swap(e) in Q && Q[Swap(e)] == Q[e];
      assert u[e.1] == u[e.0];
    }
  }

  /**
   * A symmetric rate matrix under the uniform distribution over a set of
   * states covering its edges passes both the equilibrium and the
   * detailed-balance check.
   */
  lemma SymmetricUniformPasses<S>(Q: Graph<S>, states: set<S>, checkInputs: bool)
    requires states != {}
    requires forall e :: e in Q ==> e.0 in states && e.1 in states
    requires Symmetric(Q)
    requires checkInputs ==> IsRateGraph(Q)
    ensures AssertEquilibrium(Q, Uniform(states), checkInputs) == Pass
    ensures AssertDetailedBalance(Q, Uniform(states), checkInputs) == Pass
  {
    UniformFlowSymmetric(Q, states);
    ExactDetailedBalanceImpliesEquilibrium(Q, Uniform(states), checkInputs);
  }
}
