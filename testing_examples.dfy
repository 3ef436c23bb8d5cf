/**
 * The concrete scenarios of the repository's tests (the files under nxrate/tests),
 * proved about the model. States are single characters.
 */
module TestingExamples {
  import opened Closeness
  import opened MapSums
  import opened Outcomes
  import opened Testing
  import opened TestingProperties

  // ---------------------------------------------------------------------
  // test_distns.py

  /** A negative entry is a local error even when another entry exceeds 1. */
  lemma NegativeEntryIsLocal()
    ensures AssertDistn(map['a' := 0.0, 'b' := -0.1, 'c' := 1.1]) == Fail(LocalDistn(true))
  {
    var d := map['a' := 0.0, 'b' := -0.1, 'c' := 1.1];
    assert d['b'] < 0.0;
  }

  /** The range check runs before the sum check: total 2.5, yet a local error. */
  lemma LargeEntryIsLocal()
    ensures AssertDistn(map['a' := 0.0, 'b' := 2.0, 'c' := 0.5]) == Fail(LocalDistn(false))
  {
    var d := map['a' := 0.0, 'b' := 2.0, 'c' := 0.5];
    assert d['b'] > 1.0;
  }

  /** Three halves add up to 1.5: a global error. */
  lemma LargeSumIsGlobal()
    ensures AssertDistn(map['a' := 0.5, 'b' := 0.5, 'c' := 0.5]) == Fail(GlobalDistn)
  {
    var d := map['a' := 0.5, 'b' := 0.5, 'c' := 0.5];
    assert d.Keys == {'a', 'b', 'c'};
    SumOverConst(d, d.Keys, 0.5);
    assert Total(d) == 1.5;
  }

  lemma SingleStateIsValid()
    ensures AssertDistn(map['a' := 1.0]) == Pass
  {
    var d := map['a' := 1.0];
    assert d.Keys == {'a'};
    SumOverSingleton(d, 'a');
    CloseSelf(1.0);
  }

  lemma TwoHalvesAreValid()
    ensures AssertDistn(map['a' := 0.5, 'b' := 0.5]) == Pass
  {
    var d := map['a' := 0.5, 'b' := 0.5];
    assert d.Keys == {'a', 'b'};
    SumOverConst(d, d.Keys, 0.5);
    CloseSelf(1.0);
  }

  lemma FourQuartersAreValid()
    ensures AssertDistn(map['a' := 0.25, 'b' := 0.25, 'c' := 0.25, 'd' := 0.25]) == Pass
  {
    var d := map['a' := 0.25, 'b' := 0.25, 'c' := 0.25, 'd' := 0.25];
    assert d.Keys == {'a', 'b', 'c', 'd'};
    SumOverConst(d, d.Keys, 0.25);
    CloseSelf(1.0);
    assert InUnitRange(d);
    assert IsDistn(d);
  }

  lemma QuarterAndThreeQuartersAreValid()
    ensures AssertDistn(map['a' := 0.25, 'b' := 0.75]) == Pass
  {
    var d := map['a' := 0.25, 'b' := 0.75];
    assert d.Keys == {'a', 'b'};
    SumOverRemove(d, d.Keys, 'a');
    assert d.Keys - {'a'} == {'b'};
    SumOverSingleton(d, 'b');
    CloseSelf(1.0);
  }

  // ---------------------------------------------------------------------
  // test_nxdistn.py

  lemma OneEdgeIsValid()
    ensures AssertNxdistn(map[('a', 'b') := 1.0]) == Pass
  {
    var g := map[('a', 'b') := 1.0];
    assert g.Keys == {('a', 'b')};
    SumOverSingleton(g, ('a', 'b'));
    CloseSelf(1.0);
  }

  lemma TwoEdgesAreValid()
    ensures AssertNxdistn(map[('a', 'b') := 0.4, ('b', 'a') := 0.6]) == Pass
  {
    var g := map[('a', 'b') := 0.4, ('b', 'a') := 0.6];
    assert g.Keys == {('a', 'b'), ('b', 'a')};
    SumOverRemove(g, g.Keys, ('a', 'b'));
    assert g.Keys - {('a', 'b')} == {('b', 'a')};
    SumOverSingleton(g, ('b', 'a'));
    CloseSelf(1.0);
  }

  lemma NegativeEdgeIsLocal()
    ensures AssertNxdistn(map[('a', 'b') := -0.5]) == Fail(LocalDistn(true))
  {
    var g := map[('a', 'b') := -0.5];
    assert g[('a', 'b')] < 0.0;
  }

  lemma LargeEdgeIsLocal()
    ensures AssertNxdistn(map[('a', 'b') := 1.5]) == Fail(LocalDistn(false))
  {
    var g := map[('a', 'b') := 1.5];
    assert g[('a', 'b')] > 1.0;
  }

  lemma LargeEdgeSumIsGlobal()
    ensures AssertNxdistn(map[('a', 'b') := 0.4, ('b', 'c') := 0.5, ('c', 'a') := 0.6]) == Fail(GlobalDistn)
  {
    var g := map[('a', 'b') := 0.4, ('b', 'c') := 0.5, ('c', 'a') := 0.6];
    assert g.Keys == {('a', 'b'), ('b', 'c'), ('c', 'a')};
    SumOverRemove(g, g.Keys, ('a', 'b'));
    assert g.Keys - {('a', 'b')} == {('b', 'c'), ('c', 'a')};
    SumOverRemove(g, {('b', 'c'), ('c', 'a')}, ('b', 'c'));
    assert {('b', 'c'), ('c', 'a')} - {('b', 'c')} == {('c', 'a')};
    SumOverSingleton(g, ('c', 'a'));
    assert Total(g) == 1.5;
  }

  // ---------------------------------------------------------------------
  // test_rate_matrix.py

  lemma RateMatrices()
    ensures AssertRateMatrix(map[('a', 'b') := 2.0, ('b', 'a') := 3.0, ('a', 'a') := 4.0]) == Fail(RateMatrix)
    ensures AssertRateMatrix(map[('a', 'b') := 2.0, ('b', 'a') := -3.0]) == Fail(RateMatrix)
    ensures AssertRateMatrix(map[('a', 'b') := 1.0]) == Pass
    ensures AssertRateMatrix(map[('a', 'b') := 1.0, ('b', 'a') := 2.0]) == Pass
    ensures AssertRateMatrix<char>(map[]) == Pass
  {
    var q1 := map[('a', 'b') := 2.0, ('b', 'a') := 3.0, ('a', 'a') := 4.0];
    assert ('a', 'a') in q1;
    var q2 := map[('a', 'b') := 2.0, ('b', 'a') := -3.0];
    assert q2[('b', 'a')] < 0.0;
  }

  // ---------------------------------------------------------------------
  // test_equilibrium.py

  /** Sums for a state with exactly one edge in and one edge out. */
  lemma OneInOneOut(R: Graph<char>, v: char, ein: (char, char), eout: (char, char))
    requires ein in R && eout in R
    requires InEdges(R, v) == {ein} && OutEdges(R, v) == {eout}
    requires R[ein] == R[eout]
    ensures Close(SumOver(R, InEdges(R, v)), SumOver(R, OutEdges(R, v)))
  {
    SumOverSingleton(R, ein);
    SumOverSingleton(R, eout);
    CloseSelf(R[eout]);
  }

  ghost function FourCycle(): Graph<char>
  {
    map[('a', 'b') := 2.0, ('b', 'c') := 2.0, ('c', 'd') := 2.0, ('d', 'a') := 2.0]
  }

  /** The flow of the 4-cycle under the uniform distribution: 1/4 * 2 on every edge. */
  ghost function FourCycleFlow(): Graph<char>
  {
    map[('a', 'b') := 0.5, ('b', 'c') := 0.5, ('c', 'd') := 0.5, ('d', 'a') := 0.5]
  }

  lemma FourStates()
    ensures |{'a', 'b', 'c', 'd'}| == 4
  {
  }

  lemma FourCycleInputs()
    ensures IsRateGraph(FourCycle())
    ensures AssertDistn(Uniform({'a', 'b', 'c', 'd'})) == Pass
  {
    assert IsDistn(Uniform({'a', 'b', 'c', 'd'}));
    assert FourCycle().Keys == {('a', 'b'), ('b', 'c'), ('c', 'd'), ('d', 'a')};
  }

  lemma FourCycleFlowGraph()
    ensures FlowGraph(FourCycle(), Uniform({'a', 'b', 'c', 'd'})) == FourCycleFlow()
    ensures FourCycle().Keys == FourCycleFlow().Keys
  {
    var Q := FourCycle();
    var states := {'a', 'b', 'c', 'd'};
    assert Q.Keys == {('a', 'b'), ('b', 'c'), ('c', 'd'), ('d', 'a')};
    UniformFlow(Q, states);
    FourStates();
    var R := FlowGraph(Q, Uniform(states));
    assert R.Keys == FourCycleFlow().Keys;
    forall e | e in R ensures R[e] == FourCycleFlow()[e] {
      assert R[e] == 2.0 / 4.0;
    }
  }

  /** In the 4-cycle flow, state v has the single in-edge (u, v) and the single out-edge (v, w). */
  lemma FourCycleFlowAt(u: char, v: char, w: char)
    requires (u, v, w) in {('d', 'a', 'b'), ('a', 'b', 'c'), ('b', 'c', 'd'), ('c', 'd', 'a')}
    ensures Close(SumOver(FourCycleFlow(), InEdges(FourCycleFlow(), v)),
                  SumOver(FourCycleFlow(), OutEdges(FourCycleFlow(), v)))
  {
    var R := FourCycleFlow();
    assert R.Keys == {('a', 'b'), ('b', 'c'), ('c', 'd'), ('d', 'a')};
    assert InEdges(R, v) == {(u, v)};
    assert OutEdges(R, v) == {(v, w)};
    OneInOneOut(R, v, (u, v), (v, w));
  }

  lemma FourCycleFlowEnds()
    ensures Sources(FourCycleFlow()) == {'a', 'b', 'c', 'd'}
    ensures Targets(FourCycleFlow()) == {'a', 'b', 'c', 'd'}
  {
    assert FourCycleFlow().Keys == {('a', 'b'), ('b', 'c'), ('c', 'd'), ('d', 'a')};
  }

  lemma FourCycleFlowBalanced()
    ensures Balanced(FourCycleFlow())
  {
    FourCycleFlowEnds();
    FourCycleFlowAt('d', 'a', 'b');
    FourCycleFlowAt('a', 'b', 'c');
    FourCycleFlowAt('b', 'c', 'd');
    FourCycleFlowAt('c', 'd', 'a');
  }

  lemma FourCycleFlowOneWay()
    ensures OneWay(FourCycleFlow()) == FourCycleFlow().Keys
  {
    assert FourCycleFlow().Keys == {('a', 'b'), ('b', 'c'), ('c', 'd'), ('d', 'a')};
  }

  /** The directed 4-cycle with rate 2 under the uniform distribution: equilibrium holds, detailed balance does not. */
  lemma FourCycleEquilibriumButNotDetailedBalance()
    ensures AssertEquilibrium(FourCycle(), Uniform({'a', 'b', 'c', 'd'}), true) == Pass
    ensures AssertDetailedBalance(FourCycle(), Uniform({'a', 'b', 'c', 'd'}), true) ==
              Fail(UnweightedDB(FourCycle().Keys))
  {
    var Q, u := FourCycle(), Uniform({'a', 'b', 'c', 'd'});
    FourCycleInputs();
    FourCycleFlowGraph();
    FourCycleFlowBalanced();
    FourCycleFlowOneWay();
    assert CheckInputs(Q, u, true) == Pass;
    assert EquilibriumOf(FourCycleFlow()) == Pass;
    assert DetailedBalanceOf(FourCycleFlow()) == Fail(UnweightedDB(FourCycleFlow().Keys));
  }

  ghost function Chain(): Graph<char>
  {
    map[('a', 'b') := 2.0, ('b', 'c') := 2.0]
  }

  lemma ChainInputs()
    ensures IsRateGraph(Chain())
    ensures AssertDistn(Uniform({'a', 'b', 'c'})) == Pass
  {
    assert IsDistn(Uniform({'a', 'b', 'c'}));
    assert Chain().Keys == {('a', 'b'), ('b', 'c')};
  }

  lemma ChainFlowShape()
    ensures FlowGraph(Chain(), Uniform({'a', 'b', 'c'})).Keys == Chain().Keys
  {
    assert Chain().Keys == {('a', 'b'), ('b', 'c')};
    UniformFlow(Chain(), {'a', 'b', 'c'});
  }

  lemma ChainSourcesTargets(R: Graph<char>)
    requires R.Keys == Chain().Keys
    ensures Sources(R) - Targets(R) == {'a'}
    ensures OneWay(R) == {('a', 'b'), ('b', 'c')}
  {
    assert R.Keys == {('a', 'b'), ('b', 'c')};
    assert Sources(R) == {'a', 'b'};
    assert Targets(R) == {'b', 'c'};
  }

  /** The chain a -> b -> c under the uniform distribution: 'a' has flow out but none in. */
  lemma ChainIsUnbalanced()
    ensures AssertEquilibrium(Chain(), Uniform({'a', 'b', 'c'}), true) ==
              Fail(UnweightedEquilibrium(true, {'a'}))
    ensures AssertDetailedBalance(Chain(), Uniform({'a', 'b', 'c'}), true) ==
              Fail(UnweightedDB({('a', 'b'), ('b', 'c')}))
  {
    var Q, u := Chain(), Uniform({'a', 'b', 'c'});
    ChainInputs();
    ChainFlowShape();
    var R := FlowGraph(Q, u);
    ChainSourcesTargets(R);
    assert CheckInputs(Q, u, true) == Pass;
    assert EquilibriumOf(R) == Fail(UnweightedEquilibrium(true, {'a'}));
    assert DetailedBalanceOf(R) == Fail(UnweightedDB({('a', 'b'), ('b', 'c')}));
  }
}
