# nxrate validators in Dafny

nxrate checks the inputs and outputs of continuous-time Markov chain code.
A rate matrix Q is a weighted directed graph: states are vertices, and the
rate from a to b is the weight of edge (a, b). A distribution maps states to
probabilities. This project models the library's validators as pure
verdict functions and proves what each one accepts and rejects.

- `Testing` (nxrate/testing.py) holds the graph checkers:
  - `assert_distn` and `assert_nxdistn` check distributions over states and over edges.
  - A graph rate-matrix check.
  - `assert_equilibrium` and `assert_detailed_balance`. Both build the flow graph R first. In the model, R keeps each edge (a, b) of Q whose source a is a key of `distn`, with weight `distn[a] * Q(a, b)`. The equilibrium check then compares the sparse in-flow and out-flow marginals. The detailed-balance check compares each flow edge with its reverse.
- `Util` (nxrate/util.py) holds the dense checkers on a square matrix and a vector: `assert_stochastic_vector`, `assert_rate_matrix`, `assert_equilibrium` and `assert_detailed_balance`. The numpy expressions they use are written out as sequence functions.
- `TestingProperties` and `UtilProperties` hold general lemmas:
  - exact detailed balance implies equilibrium;
  - symmetric chains under the uniform distribution pass both balance checks;
  - the off-diagonal test never sees the diagonal.
- `TestingExamples` proves the concrete scenarios of the test files under nxrate/tests.
- `Bridge` relates the graph checkers to the dense ones. It lays a graph over an ordered list of distinct states, so the graph becomes a vector and a generator matrix.
- Helper modules:
  - `Closeness` is numpy's `allclose` rule: |a − b| ≤ 1e-8 + 1e-5·|b|.
  - `MapSums` gives order-independent sums over map keys.
  - `SeqSums` gives sums of sequences.
  - `Outcomes` is the verdict type: `Pass` or `Fail(error)`.

The contracts give each check's failure conditions in precedence order (an earlier check wins), and say when it passes; the error kinds are the ones the tests expect. For the two balance checks the contracts say which input error comes back. Past the input checks, they say that the verdict is the one computed from the flow graph. In `testing.py` the checkers raise exceptions. Here each exception is a `Fail` value, and a check that returns normally is `Pass`.

`assert_distn` (nxrate/testing.py:22-52) checks emptiness, range and total only. It has no check on the keys themselves.

## Model

| member | source | states |
|---|---|---|
| Closeness.CloseSelf | nxrate/testing.py:50 | every value is allclose to itself, so an exact match always passes a magnitude test |
| Closeness.CloseToZero | nxrate/util.py:30 | closeness to 0 means only the absolute tolerance applies |
| MapSums.SumOverRemove | nxrate/testing.py:49 | a map sum does not depend on the order in which keys are taken |
| MapSums.SumOverConst | nxrate/testing.py:49 | a sum of n equal values c is n·c |
| Testing.ArgMin | nxrate/testing.py:35-36 | the chosen key is in the map and no value is below its value |
| Testing.ArgMax | nxrate/testing.py:42-43 | the chosen key is in the map and no value is above its value |
| Testing.AssertDistn | nxrate/testing.py:22-52 | empty support iff the map is empty; LocalDistn(true) iff non-empty with a negative value; LocalDistn(false) iff no value is negative and some value exceeds 1; a local error iff some value is outside [0, 1]; GlobalDistn iff all values are in [0, 1] and the total is not close to 1; Pass iff a valid distribution; every failure is an input error |
| Testing.AssertNxdistn | nxrate/testing.py:55-56 | the verdict of assert_distn on the edge-keyed map: empty iff no edges, local iff some weight is outside [0, 1], global iff all weights are in range and the total is not close to 1, Pass iff valid |
| Testing.AssertRateMatrix | nxrate/tests/test_rate_matrix.py:13-52 | passes iff no edge is a self-loop and no rate is negative, otherwise fails with the rate-matrix error; the edge-free graph passes |
| Testing.CheckInputs | nxrate/testing.py:64-67 | passes iff input checking is off, or Q is a rate graph and distn a valid distribution; an invalid Q gives the rate-matrix error; with checking on and Q valid, the verdict is exactly that of assert_distn on distn; failures are input errors |
| Testing.FlowGraph | nxrate/testing.py:70 | R has exactly the edges of Q whose source is a state of distn; with probabilities in [0, 1] and non-negative rates, 0 ≤ R(e) ≤ Q(e) |
| Testing.SumMarginalOut | nxrate/testing.py:74 | summing the out-flows over any set of states gives the total flow on edges leaving that set |
| Testing.SumMarginalIn | nxrate/testing.py:73 | summing the in-flows over any set of states gives the total flow on edges entering that set |
| Testing.FlowOut | nxrate/testing.py:74 | the out-flow marginal is defined exactly on the states with an outgoing flow edge; its values add up to the total flow of R; with non-negative flows each state's out-flow lies between 0 and that total |
| Testing.FlowIn | nxrate/testing.py:73 | the in-flow marginal is defined exactly on the states with an incoming flow edge; its values add up to the total flow of R; with non-negative flows each state's in-flow lies between 0 and that total |
| Testing.EquilibriumOf | nxrate/testing.py:72-94 | states with flow out but none in are reported first, with the whole set; then states with flow in but none out; WeightedEquilibrium iff the two key sets are equal and some state's in-flow is not close to its out-flow; Pass iff balanced; never an input error |
| Testing.AssertEquilibrium | nxrate/testing.py:59-94 | an input error iff checking is on and Q or distn is invalid; when the input checks fail, their exact error is the result, so the rate-matrix error takes precedence and otherwise assert_distn's error comes back; once the inputs pass, the result is the equilibrium verdict of the flow graph |
| Testing.MirrorMember | nxrate/testing.py:108 | (a, b) is among the implied reverse edges iff (b, a) is an edge |
| Testing.DetailedBalanceOf | nxrate/testing.py:106-122 | UnweightedDB naming every flow edge without a reverse flow edge, whenever one exists; WeightedDB iff every flow edge has a reverse but some pair's flows are not close; Pass iff every pair is present both ways and close |
| Testing.AssertDetailedBalance | nxrate/testing.py:97-122 | an input error iff checking is on and Q or distn is invalid; when the input checks fail, their exact error is the result, so the rate-matrix error takes precedence and otherwise assert_distn's error comes back; once the inputs pass, the result is the detailed-balance verdict of the flow graph |
| TestingProperties.Uniform | nxrate/tests/test_distns.py:60-64 | the uniform distribution over any non-empty set of states passes assert_distn |
| TestingProperties.UniformFlow | nxrate/testing.py:70 | under the uniform distribution the flow graph has the edges of Q, each rate divided by the number of states |
| TestingProperties.SumOverMirror | nxrate/testing.py:108 | reversing a set of edges whose reverses carry equal flow preserves the sum |
| TestingProperties.ExactSymmetryBalances | nxrate/testing.py:88-94 | an exactly symmetric flow graph has equal source and target sets, exactly equal in-flow and out-flow at each state, and passes both the equilibrium and the pairwise conditions |
| TestingProperties.ExactDetailedBalanceImpliesEquilibrium | nxrate/tests/test_equilibrium.py:38-43 | with an exactly symmetric flow graph, both balance checks return the verdict of the input checks alone |
| TestingProperties.DetailedBalanceHasNoOneSidedStates | nxrate/testing.py:76-86 | when detailed balance passes, equilibrium passes or fails only on a magnitude, never on a one-sided state |
| TestingProperties.SymmetricUniformPasses | nxrate/tests/test_detailed_balance.py:36-41 | a symmetric rate graph under the uniform distribution over states covering its edges passes both balance checks, with or without input checking |
| TestingExamples.NegativeEntryIsLocal | nxrate/tests/test_distns.py:14-19 | {a: 0, b: −0.1, c: 1.1} fails with a local error for a negative value |
| TestingExamples.LargeEntryIsLocal | nxrate/tests/test_distns.py:22-27 | {a: 0, b: 2, c: 0.5} fails with a local error, even though its total 2.5 is also wrong |
| TestingExamples.LargeSumIsGlobal | nxrate/tests/test_distns.py:30-35 | three halves fail with a global error |
| TestingExamples.SingleStateIsValid | nxrate/tests/test_distns.py:38-40 | {a: 1} passes |
| TestingExamples.TwoHalvesAreValid | nxrate/tests/test_distns.py:43-45 | two halves pass |
| TestingExamples.FourQuartersAreValid | nxrate/tests/test_distns.py:48-52 | four quarters pass |
| TestingExamples.QuarterAndThreeQuartersAreValid | nxrate/tests/test_distns.py:55-57 | {a: 0.25, b: 0.75} passes |
| TestingExamples.OneEdgeIsValid | nxrate/tests/test_nxdistn.py:13-18 | one edge of weight 1 passes |
| TestingExamples.TwoEdgesAreValid | nxrate/tests/test_nxdistn.py:21-27 | edges of weight 0.4 and 0.6 pass |
| TestingExamples.NegativeEdgeIsLocal | nxrate/tests/test_nxdistn.py:30-35 | an edge of weight −0.5 fails with a local error |
| TestingExamples.LargeEdgeIsLocal | nxrate/tests/test_nxdistn.py:38-43 | an edge of weight 1.5 fails with a local error |
| TestingExamples.LargeEdgeSumIsGlobal | nxrate/tests/test_nxdistn.py:46-53 | edges of weight 0.4, 0.5 and 0.6 fail with a global error |
| TestingExamples.RateMatrices | nxrate/tests/test_rate_matrix.py:13-52 | a self-loop fails, a negative rate fails, a one-way edge passes, two weighted edges pass, the edge-free graph passes |
| TestingExamples.FourCycleFlowGraph | nxrate/tests/test_equilibrium.py:96-105 | the rate-2 four-cycle under the uniform distribution has flow 0.5 on each of its four edges |
| TestingExamples.FourCycleFlowBalanced | nxrate/tests/test_equilibrium.py:108 | in that flow graph the in-flow and out-flow marginals have the same states, and at each state the in-flow is close to the out-flow (the equilibrium pass condition) |
| TestingExamples.FourCycleFlowOneWay | nxrate/tests/test_equilibrium.py:106-107 | in that flow graph no edge has a reverse |
| TestingExamples.FourCycleEquilibriumButNotDetailedBalance | nxrate/tests/test_equilibrium.py:96-108 | the four-cycle passes equilibrium but fails detailed balance with UnweightedDB naming all four edges, so equilibrium does not imply detailed balance |
| TestingExamples.ChainSourcesTargets | nxrate/tests/test_equilibrium.py:111-118 | in the chain a → b → c only a has flow out and none in, and both edges are one-way |
| TestingExamples.ChainIsUnbalanced | nxrate/tests/test_equilibrium.py:111-122 | the chain under the uniform distribution fails equilibrium with UnweightedEquilibrium for {a} and fails detailed balance with UnweightedDB for both edges |
| Util.AssertStochasticVector | nxrate/util.py:11-19 | a range error iff some entry is outside [0, 1]; SumNotOne iff all entries are in range and the sum is not close to 1; Pass iff both conditions hold; the empty vector fails on its sum |
| Util.OffDiagonalBelow | nxrate/util.py:26 | Q − diag(diag(Q)) has an entry below c ≤ 0 iff some off-diagonal entry of Q is below c |
| Util.AssertRateMatrix | nxrate/util.py:21-27 | RowSumNotZero iff some row sum is not close to 0; then PositiveDiagonal iff some diagonal entry is positive; then NegativeOffDiagonal iff some off-diagonal entry is negative; Pass iff rows sum close to 0, the diagonal is non-positive and the off-diagonal non-negative |
| Util.AssertEquilibrium | nxrate/util.py:29-31 | passes iff, for every column j, the sum over i of distn[i]·Q[i][j] is close to 0 |
| Util.FlowMatrix | nxrate/util.py:34 | (Q.T * distn).T has entry (i, j) equal to distn[i]·Q[i][j] |
| Util.AssertDetailedBalance | nxrate/util.py:33-36 | passes iff distn[i]·Q[i][j] is close to distn[j]·Q[j][i] for every pair i ≠ j; the diagonal never fails |
| UtilProperties.UniformVector | nxrate/util.py:11-19 | the uniform vector of any positive length has that length and passes assert_stochastic_vector |
| UtilProperties.OffDiagonalPartIgnoresDiagonal | nxrate/util.py:26 | two matrices that agree off the diagonal have the same Q − diag(diag(Q)) |
| UtilProperties.ExactDetailedBalanceImpliesEquilibrium | nxrate/util.py:29-36 | rows summing exactly to 0 plus exact symmetry of the flow matrix pass both the detailed-balance and the equilibrium check |
| UtilProperties.SymmetricUniformPasses | nxrate/util.py:29-36 | a symmetric matrix with zero row sums under the uniform vector passes the distribution, detailed-balance and equilibrium checks |
| Bridge.SumOverListed | nxrate/util.py:17 | the map sum over a list of distinct keys equals the vector sum of their values |
| Bridge.DistnMatchesStochasticVector | nxrate/util.py:11-19 | assert_distn on a map and assert_stochastic_vector on its values listed as a vector both pass or both fail; a range error in one is a range error in the other; a bad total in one is a bad total in the other; they differ only on the empty distribution |
| Bridge.DenseRowSumsToZero | nxrate/util.py:22 | each row of the dense generator built from a graph sums exactly to 0 |
| Bridge.DenseDiagonalNonPositive | nxrate/util.py:24 | with no negative rates (self-loops allowed), each diagonal entry of the dense generator is non-positive |
| Bridge.DenseRowsCloseToZero | nxrate/util.py:22-23 | the dense generator of any graph passes the row-sum test |
| Bridge.DenseSignsOfRateGraph | nxrate/util.py:24-27 | a rate graph's dense generator passes the diagonal and the off-diagonal tests |
| Bridge.DenseNegativeEntry | nxrate/util.py:26-27 | a graph between listed states that is not a rate graph has a negative off-diagonal entry |
| Bridge.RateMatrixMatchesDense | nxrate/util.py:21-27 | for a graph with no self-loops over listed states, the dense check never fails on row sums, and the graph check passes iff the dense check passes |

## Left out

- Exception classes. Every raise in nxrate/testing.py (lines 32, 38, 45, 51, 79, 85, 92, 111, 120) raises a plain `Exception`. testing.py defines none of the error classes the tests import (nxrate/tests/test_distns.py:11, nxrate/tests/test_nxdistn.py:10, nxrate/tests/test_equilibrium.py:19-23, nxrate/tests/test_detailed_balance.py:18-21). The constructors of `Testing.Error` (`EmptySupport`, `LocalDistn`, `GlobalDistn` and the rest) are distinctions the model takes from those test imports. The code itself tells them apart only by raise site and message.
- Error messages, `%f` formatting and which offending state or pair a message names. The weighted equilibrium and detailed-balance loops iterate over a Python set, so which mismatch is met first is not determined.
- The tie-break order of `dict_argmin` and `dict_argmax` (the first key in dict order wins). Testing.ArgMin and Testing.ArgMax return some key with the extreme value. The verdict does not depend on which one.
- networkx and numpy themselves (DiGraph, degree views, `allclose`, `dot`, broadcasting). A graph is its edge-weight map. Isolated vertices are dropped because no checker reads them. Arrays are sequences of rows.
- Testing.FlowOut, Testing.FlowIn: these are a sparse reading of the weighted degrees at nxrate/testing.py:73-74. A state appears in the out-flow marginal only if it has an outgoing flow edge, and likewise for in-flow. networkx's weighted degree lists every node of R, giving 0 to a node with no edge on that side, and under that reading the checks at nxrate/testing.py:77-86 could never fire. The test at nxrate/tests/test_equilibrium.py:111-120 expects them to fire, so the model takes the sparse reading.
- Floating-point rounding. Probabilities and rates are exact reals. Closeness is the tolerance formula of `allclose`, not IEEE behaviour.
- Array shapes. Util's functions require a square matrix and a vector of matching length. This restricts the model. numpy accepts some other shapes, for example `np.dot` of an n-vector with an n x m matrix, or a 1 x n matrix in `Q - np.diag(np.diag(Q))`. The model says nothing about them.
- The missing `numpy` import in nxrate/util.py, and the missing definition of `assert_rate_matrix` in nxrate/testing.py. util.py uses `np` only inside its function bodies, so the module imports cleanly, but every call to its four checkers raises `NameError`. The model gives their intended semantics. The second is a graph check built from the behaviour required in nxrate/tests/test_rate_matrix.py.
- The helpers `dict_argmin`, `dict_argmax`, `nxdistn_to_distn` and `get_directed_flow_graph`. They are imported at nxrate/testing.py:17-18, but their source is not part of this model. They are modelled from their use in nxrate/testing.py.
- `nxdistn_to_distn` has no member of its own. A graph is already its map from (source, target) pairs to weights, so converting it to a distribution over edges is the identity, and Testing.AssertNxdistn applies Testing.AssertDistn to the graph directly.
- Testing.FlowGraph: this is a reading of `get_directed_flow_graph`, whose code is not part of this model. The model keeps every edge (a, b) of Q whose source a is a key of `distn`, with weight `distn[a] * Q(a, b)`, including when `distn[a]` is 0. A reading that keeps only positive-mass sources can give a different verdict. For example, take distn {a: 0, b: 1} and Q {(a, b): 1, (b, a): 1}. The model's flow graph is {(a, b): 0, (b, a): 1}, so detailed balance fails with WeightedDB. The positive-mass reading's flow graph is {(b, a): 1}, which fails with UnweightedDB.
- The random fixture generators (`get_uniform_distn`, `get_random_binom_distn`, `get_random_symmetric_dense_Q`, `get_random_symmetric_sparse_Q`) and the nose test harness. TestingProperties.Uniform and UtilProperties.UniformVector stand in for the uniform fixture. General lemmas over all symmetric matrices stand in for the random symmetric ones. The tests that expect a random binomial distribution to fail the weighted checks depend on the random draw, so they are not modelled.
- setup.py, which is packaging only.
- Bridge.RateMatrixMatchesDense: a self-loop has no place in a dense generator, which has one diagonal entry per state, so the lemma requires that the graph has none.
- The dense equilibrium and detailed-balance checks are not related to the graph checks by a lemma. The model proves each family's properties separately.
