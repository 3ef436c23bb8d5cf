/**
 * Validators for continuous-time Markov chains given as weighted directed
 * graphs (nxrate/testing.py): a distribution over states, a distribution
 * over edges, a rate matrix, stochastic equilibrium and detailed balance.
 *
 * A directed graph is modelled by its edge-weight map: (a, b) is an edge
 * with weight g[(a, b)]. A distribution maps states to probabilities.
 * Every checker is a pure verdict: it passes, or it fails with the kind of
 * error the source raises first.
 */
module Testing {
  import opened Closeness
  import opened MapSums
  import opened Outcomes

  /** A finite distribution over the keys of a map. */
  type Distn<S(==)> = map<S, real>
  /** A weighted directed graph: rate matrix Q, flow graph R or edge distribution. */
  type Graph<S(==)> = map<(S, S), real>

  datatype Error<S> =
    | EmptySupport
      /** Some probability is out of [0, 1]; belowZero when the minimum is negative. */
    | LocalDistn(belowZero: bool)
    | GlobalDistn
      /** A self-transition or a negative rate. */
    | RateMatrix
      /** States with flow on one side only; outOnly for flow out but not in. */
    | UnweightedEquilibrium(outOnly: bool, states: set<S>)
    | WeightedEquilibrium
      /** Flow edges whose reverse carries no flow. */
    | UnweightedDB(pairs: set<(S, S)>)
    | WeightedDB

  type Verdict<S> = Outcome<Error<S>>

  /** The errors raised by the input validators. */
  predicate IsInputError<S>(e: Error<S>)
  {
    e.EmptySupport? || e.LocalDistn? || e.GlobalDistn? || e.RateMatrix?
  }

  // ---------------------------------------------------------------------
  // Distributions

  /** Every probability lies in [0, 1]. */
  ghost predicate InUnitRange<S>(d: Distn<S>)
  {
    forall k :: k in d ==> 0.0 <= d[k] <= 1.0
  }

  /** A valid finite distribution: non-empty, entries in [0, 1], total close to 1. */
  ghost predicate IsDistn<S>(d: Distn<S>)
  {
    d != map[] && InUnitRange(d) && Close(Total(d), 1.0)
  }

  /** A key with the smallest value (dict_argmin). */
  ghost function ArgMin<S>(d: Distn<S>): (k: S)
    requires d != map[]
    ensures k in d && forall j :: j in d ==> d[k] <= d[j]
    decreases d.Keys
  {
    var j :| j in d;
    var rest := d - {j};
    assert forall i :: i in d && i != j ==> i in rest;
    if rest == map[] then j
    else
      var r := ArgMin(rest);
      if d[r] < d[j] then r else j
  }

  /** A key with the largest value (dict_argmax). */
  ghost function ArgMax<S>(d: Distn<S>): (k: S)
    requires d != map[]
    ensures k in d && forall j :: j in d ==> d[j] <= d[k]
    decreases d.Keys
  {
    var j :| j in d;
    var rest := d - {j};
    assert forall i :: i in d && i != j ==> i in rest;
    if rest == map[] then j
    else
      var r := ArgMax(rest);
      if d[r] > d[j] then r else j
  }

  /**
   * assert_distn: empty support first, then the minimum against 0, then the
   * maximum against 1, then the total against 1.
   */
  ghost function AssertDistn<S>(d: Distn<S>): (r: Verdict<S>)
    ensures r == Fail(EmptySupport) <==> d == map[]
    ensures r == Fail(LocalDistn(true)) <==>
              d != map[] && exists k :: k in d && d[k] < 0.0
    ensures r == Fail(LocalDistn(false)) <==>
              d != map[] && (forall k :: k in d ==> 0.0 <= d[k]) && exists k :: k in d && d[k] > 1.0
    ensures (r.Fail? && r.error.LocalDistn?) <==>
              d != map[] && exists k :: k in d && (d[k] < 0.0 || d[k] > 1.0)
    ensures r == Fail(GlobalDistn) <==>
              d != map[] && InUnitRange(d) && !Close(Total(d), 1.0)
    ensures r == Pass <==> IsDistn(d)
    ensures r.Fail? ==> IsInputError(r.error)
  {
    if d == map[] then Fail(EmptySupport)
    else
      var minK := ArgMin(d);
      if d[minK] < 0.0 then Fail(LocalDistn(true))
      else
        var maxK := ArgMax(d);
        if d[maxK] > 1.0 then Fail(LocalDistn(false))
        else if !Close(Total(d), 1.0) then Fail(GlobalDistn)
        else Pass
  }

  /**
   * assert_nxdistn: the edge weights, read as a distribution over edges.
   * Keyed by (source, target) pairs, the edge-weight map already is that
   * distribution, so nxdistn_to_distn is the identity here.
   */
  ghost function AssertNxdistn<S>(g: Graph<S>): (r: Verdict<S>)
    ensures r == Fail(EmptySupport) <==> g == map[]
    ensures (r.Fail? && r.error.LocalDistn?) <==>
              exists e :: e in g && (g[e] < 0.0 || g[e] > 1.0)
    ensures r == Fail(GlobalDistn) <==>
              g != map[] && (forall e :: e in g ==> 0.0 <= g[e] <= 1.0)
              && !Close(Total(g), 1.0)
    ensures r == Pass <==> IsDistn(g)
  {
    match AssertDistn(g)
    case Pass => Pass
    case Fail(e) =>
      Fail(match e
        case LocalDistn(below) => LocalDistn(below)
        case GlobalDistn => GlobalDistn
        case _ => EmptySupport)
  }

  // ---------------------------------------------------------------------
  // Rate matrices

  /** No self-transition and no negative rate. */
  ghost predicate IsRateGraph<S>(Q: Graph<S>)
  {
    forall e :: e in Q ==> e.0 != e.1 && Q[e] >= 0.0
  }

  /** assert_rate_matrix on a graph: every edge must join distinct states with a non-negative rate. */
  ghost function AssertRateMatrix<S>(Q: Graph<S>): (r: Verdict<S>)
    ensures r == Pass || r == Fail(RateMatrix)
    ensures r == Pass <==> IsRateGraph(Q)
    ensures Q == map[] ==> r == Pass
  {
    if exists e :: e in Q && (e.0 == e.1 || Q[e] < 0.0) then Fail(RateMatrix) else Pass
  }

  /** The input validation the balance checkers run when checkInputs is set. */
  ghost function CheckInputs<S>(Q: Graph<S>, distn: Distn<S>, checkInputs: bool): (r: Verdict<S>)
    ensures r == Pass <==> !checkInputs || (IsRateGraph(Q) && IsDistn(distn))
    ensures r.Fail? ==> IsInputError(r.error)
    ensures checkInputs && !IsRateGraph(Q) ==> r == Fail(RateMatrix)
    ensures checkInputs && IsRateGraph(Q) ==> r == AssertDistn(distn)
  {
    if !checkInputs then Pass
    else if AssertRateMatrix(Q).Fail? then AssertRateMatrix(Q)
    else AssertDistn(distn)
  }

  // ---------------------------------------------------------------------
  // Flow graph and marginal flows

  function Swap<S>(e: (S, S)): (f: (S, S))
  {
    (e.1, e.0)
  }

  /**
   * get_directed_flow_graph: every edge of Q whose source is a state of distn,
   * weighted by distn[a] * Q(a, b); edges out of other states are omitted.
   */
  ghost function FlowGraph<S>(Q: Graph<S>, distn: Distn<S>): (R: Graph<S>)
    ensures forall e :: e in R ==> e in Q && e.0 in distn
    ensures forall e :: e in Q && e.0 in distn ==> e in R
    ensures forall e :: e in R && 0.0 <= distn[e.0] <= 1.0 && 0.0 <= Q[e] ==> 0.0 <= R[e] <= Q[e]
  {
    map e | e in Q && e.0 in distn :: distn[e.0] * Q[e]
  }

  ghost function OutEdges<S>(R: Graph<S>, v: S): (es: set<(S, S)>)
    ensures es <= R.Keys
  {
    set e | e in R && e.0 == v
  }

  ghost function InEdges<S>(R: Graph<S>, v: S): (es: set<(S, S)>)
    ensures es <= R.Keys
  {
    set e | e in R && e.1 == v
  }

  /** States with at least one outgoing edge. */
  ghost function Sources<S>(R: Graph<S>): (vs: set<S>)
  {
    set e | e in R :: e.0
  }

  /** States with at least one incoming edge. */
  ghost function Targets<S>(R: Graph<S>): (vs: set<S>)
  {
    set e | e in R :: e.1
  }

  /** The flow edges leaving any of the states in vs. */
  ghost function EdgesFrom<S>(R: Graph<S>, vs: set<S>): (es: set<(S, S)>)
    ensures es <= R.Keys
  {
    set e | e in R && e.0 in vs
  }

  /** The flow edges entering any of the states in vs. */
  ghost function EdgesInto<S>(R: Graph<S>, vs: set<S>): (es: set<(S, S)>)
    ensures es <= R.Keys
  {
    set e | e in R && e.1 in vs
  }

  /** A map holding each state's out-flow, summed over a set of states, is the flow leaving that set. */
  lemma {:induction false} SumMarginalOut<S>(R: Graph<S>, m: map<S, real>, vs: set<S>)
    requires vs <= m.Keys
    requires forall v :: v in m ==> m[v] == SumOver(R, OutEdges(R, v))
    ensures SumOver(m, vs) == SumOver(R, EdgesFrom(R, vs))
    decreases vs
  {
    if vs == {} {
      assert EdgesFrom(R, vs) == {};
    } else {
      var v := Pick(vs);
      SumOverRemove(m, vs, v);
      SumMarginalOut(R, m, vs - {v});
      assert EdgesFrom(R, vs) == OutEdges(R, v) + EdgesFrom(R, vs - {v});
      SumOverUnion(R, OutEdges(R, v), EdgesFrom(R, vs - {v}));
    }
  }

  /** A map holding each state's in-flow, summed over a set of states, is the flow entering that set. */
  lemma {:induction false} SumMarginalIn<S>(R: Graph<S>, m: map<S, real>, vs: set<S>)
    requires vs <= m.Keys
    requires forall v :: v in m ==> m[v] == SumOver(R, InEdges(R, v))
    ensures SumOver(m, vs) == SumOver(R, EdgesInto(R, vs))
    decreases vs
  {
    if vs == {} {
      assert EdgesInto(R, vs) == {};
    } else {
      var v := Pick(vs);
      SumOverRemove(m, vs, v);
      SumMarginalIn(R, m, vs - {v});
      assert EdgesInto(R, vs) == InEdges(R, v) + EdgesInto(R, vs - {v});
      SumOverUnion(R, InEdges(R, v), EdgesInto(R, vs - {v}));
    }
  }

  /** Every flow is non-negative. */
  ghost predicate NonNegative<S>(R: Graph<S>)
  {
    forall e :: e in R ==> R[e] >= 0.0
  }

  /**
   * Weighted out-degree, listing only states that have an outgoing edge.
   * The out-flows partition the flow graph, so they add up to its total;
   * with non-negative flows each lies between 0 and that total.
   */
  ghost function FlowOut<S>(R: Graph<S>): (m: map<S, real>)
    ensures m.Keys == Sources(R)
    ensures forall v :: v in m ==> m[v] == SumOver(R, OutEdges(R, v))
    ensures Total(m) == Total(R)
    ensures NonNegative(R) ==> forall v :: v in m ==> 0.0 <= m[v] <= Total(R)
  {
    var m := map v | v in Sources(R) :: SumOver(R, OutEdges(R, v));
    SumMarginalOut(R, m, m.Keys);
    assert EdgesFrom(R, Sources(R)) == R.Keys;
    assert NonNegative(R) ==> forall v :: v in m ==> 0.0 <= m[v] <= Total(R) by {
      if NonNegative(R) {
        forall v | v in m ensures 0.0 <= m[v] <= Total(R) {
          SumOverSubset(R, OutEdges(R, v));
        }
      }
    }
    m
  }

  /**
   * Weighted in-degree, listing only states that have an incoming edge.
   * The in-flows partition the flow graph, so they add up to its total;
   * with non-negative flows each lies between 0 and that total.
   */
  ghost function FlowIn<S>(R: Graph<S>): (m: map<S, real>)
    ensures m.Keys == Targets(R)
    ensures forall v :: v in m ==> m[v] == SumOver(R, InEdges(R, v))
    ensures Total(m) == Total(R)
    ensures NonNegative(R) ==> forall v :: v in m ==> 0.0 <= m[v] <= Total(R)
  {
    var m := map v | v in Targets(R) :: SumOver(R, InEdges(R, v));
    SumMarginalIn(R, m, m.Keys);
    assert EdgesInto(R, Targets(R)) == R.Keys;
    assert NonNegative(R) ==> forall v :: v in m ==> 0.0 <= m[v] <= Total(R) by {
      if NonNegative(R) {
        forall v | v in m ensures 0.0 <= m[v] <= Total(R) {
          SumOverSubset(R, InEdges(R, v));
        }
      }
    }
    m
  }

  // ---------------------------------------------------------------------
  // Equilibrium

  /** Every state with flow has flow on both sides, and the two are close. */
  ghost predicate Balanced<S>(R: Graph<S>)
  {
    Sources(R) == Targets(R) &&
    forall v :: v in Sources(R) ==> Close(SumOver(R, InEdges(R, v)), SumOver(R, OutEdges(R, v)))
  }

  /**
   * The equilibrium verdict on a flow graph: states with flow out but none in
   * first, then states with flow in but none out, then a magnitude mismatch.
   */
  ghost function EquilibriumOf<S>(R: Graph<S>): (r: Verdict<S>)
    ensures Sources(R) - Targets(R) != {} ==>
              r == Fail(UnweightedEquilibrium(true, Sources(R) - Targets(R)))
    ensures Sources(R) - Targets(R) == {} && Targets(R) - Sources(R) != {} ==>
              r == Fail(UnweightedEquilibrium(false, Targets(R) - Sources(R)))
    ensures r == Fail(WeightedEquilibrium) <==> Sources(R) == Targets(R) && !Balanced(R)
    ensures r == Pass <==> Balanced(R)
    ensures r.Fail? ==> !IsInputError(r.error)
  {
    var flowIn := FlowIn(R);
    var flowOut := FlowOut(R);
    var outOnly := flowOut.Keys - flowIn.Keys;
    var inOnly := flowIn.Keys - flowOut.Keys;
    if outOnly != {} then Fail(UnweightedEquilibrium(true, outOnly))
    else if inOnly != {} then Fail(UnweightedEquilibrium(false, inOnly))
    else
      if exists s :: s in flowIn && s in flowOut && !Close(flowIn[s], flowOut[s]) then
        Fail(WeightedEquilibrium)
      else Pass
  }

  /** assert_equilibrium: input validation unless switched off, then the flow checks. */
  ghost function AssertEquilibrium<S>(Q: Graph<S>, distn: Distn<S>, checkInputs: bool): (r: Verdict<S>)
    ensures (r.Fail? && IsInputError(r.error)) <==>
              checkInputs && !(IsRateGraph(Q) && IsDistn(distn))
    ensures checkInputs && !IsRateGraph(Q) ==> r == Fail(RateMatrix)
    ensures CheckInputs(Q, distn, checkInputs).Fail? ==> r == CheckInputs(Q, distn, checkInputs)
    ensures CheckInputs(Q, distn, checkInputs).Pass? ==> r == EquilibriumOf(FlowGraph(Q, distn))
  {
    var inputs := CheckInputs(Q, distn, checkInputs);
    if inputs.Fail? then inputs
    else EquilibriumOf(FlowGraph(Q, distn))
  }

  // ---------------------------------------------------------------------
  // Detailed balance

  /** The reversed edges (b, a) of a set of edges (a, b). */
  ghost function Mirror<S>(es: set<(S, S)>): (ms: set<(S, S)>)
  {
    set e | e in es :: Swap(e)
  }

  lemma MirrorMember<S>(es: set<(S, S)>, e: (S, S))
    ensures e in Mirror(es) <==> Swap(e) in es
  {
    if Swap(e) in es {
      assert Swap(Swap(e)) == e;
    }
  }

  /** Flow edges whose reverse is not a flow edge. */
  ghost function OneWay<S>(R: Graph<S>): (es: set<(S, S)>)
  {
    set e | e in R && Swap(e) !in R
  }

  /** Every flow edge has a reverse flow edge, and each direction is close to the other. */
  ghost predicate PairwiseBalanced<S>(R: Graph<S>)
  {
    forall e :: e in R ==> Swap(e) in R && Close(R[e], R[Swap(e)])
  }

  /**
   * The detailed-balance verdict on a flow graph: one-directional flow first
   * (naming every such edge), then a forward/backward magnitude mismatch.
   */
  ghost function DetailedBalanceOf<S>(R: Graph<S>): (r: Verdict<S>)
    ensures OneWay(R) != {} ==> r == Fail(UnweightedDB(OneWay(R)))
    ensures r == Fail(WeightedDB) <==> OneWay(R) == {} && !PairwiseBalanced(R)
    ensures r == Pass <==> PairwiseBalanced(R)
    ensures r.Fail? ==> !IsInputError(r.error)
  {
    var edges := R.Keys;
    var imba := edges - Mirror(edges);
    assert imba == OneWay(R) by {
      forall e | e in R.Keys ensures e in Mirror(R.Keys) <==> Swap(e) in R {
        MirrorMember(R.Keys, e);
      }
    }
    if imba != {} then Fail(UnweightedDB(imba))
    else
      assert forall e :: e in R ==> Swap(e) in R by {
        forall e | e in R ensures Swap(e) in R {
          assert e !in OneWay(R);
        }
      }
      if exists e :: e in R && Swap(e) in R && !Close(R[e], R[Swap(e)]) then Fail(WeightedDB)
      else Pass
  }

  /** assert_detailed_balance: input validation unless switched off, then the pairwise checks. */
  ghost function AssertDetailedBalance<S>(Q: Graph<S>, distn: Distn<S>, checkInputs: bool): (r: Verdict<S>)
    ensures (r.Fail? && IsInputError(r.error)) <==>
              checkInputs && !(IsRateGraph(Q) && IsDistn(distn))
    ensures checkInputs && !IsRateGraph(Q) ==> r == Fail(RateMatrix)
    ensures CheckInputs(Q, distn, checkInputs).Fail? ==> r == CheckInputs(Q, distn, checkInputs)
    ensures CheckInputs(Q, distn, checkInputs).Pass? ==> r == DetailedBalanceOf(FlowGraph(Q, distn))
  {
    var inputs := CheckInputs(Q, distn, checkInputs);
    if inputs.Fail? then inputs
    else DetailedBalanceOf(FlowGraph(Q, distn))
  }
}
