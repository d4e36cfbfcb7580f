# Age-weighted PageRank, modelled and verified in Dafny

This project models `AgeBasedPR.py`. It has two parts:

- `normalize(d, target)` rescales a score dictionary so that it sums to `target`.
- `AgeBasedPR(G, ages, a, b, alpha, max_iter, tol)` is a PageRank power
  iteration in which each node's score is multiplied by a per-node weight
  `NodeWeight = 1 + a * exp(-b * age)`. The teleport term is not multiplied.

Scores are exact `real`s. Nodes are `0 .. N-1`, in the graph's iteration
order. The graph is a successor list per node (`seq<seq<nat>>`); a node's
out-degree is the length of its list. `IsGraph` says every successor is a node
and none is listed twice. A dictionary keyed by the nodes is a sequence indexed
by node position. The weights are an input `w`, one entry per node.

Files:

- `results.dfy`: the `Result` type and the two errors the program can raise.
  - `EmptyGraph` is the division `1.0 / N` with no nodes (line 38).
  - `ZeroRawSum` is the division `target / raw` in `normalize` (line 8) with a
    zero raw sum. Inside the solver this stands for infinite or NaN scores,
    not an exception (see "## Left out").
- `sums.dfy`: finite sums of reals (Python's `sum`) and the facts about them
  the proofs use.
- `normalize.dfy`: `normalize`.
- `age_based_pr.dfy`: the solver.
  - Values computed once: the dangling list, `danglesum`, and what each node
    sends along each out-edge.
  - The pass loop at lines 57-62 is the method `Accumulate`. It works on an
    `array<real>`, visiting the nodes in order. Each visit is `Visit`, and the
    inner push loop is `PushFrom`.
  - One iteration (lines 54-63) is `PowerStep`.
  - The `while` loop (lines 51-66) is `AgeBasedPageRank`.
  - Each method is proved equal to a specification function:
    - the state after the first `k` visits is `ScoresAfterVisits`;
    - a whole pass is `RawScores`, then `NextScores`;
    - the loop is `Run` and `Solve`.
- `properties.dfy`: what the iteration guarantees, proved about those
  functions.

The pass follows the code's visit order, not an idealised PageRank. When node
`n` is visited:

1. it pushes its damped score to its successors;
2. it adds its dangling share;
3. it is multiplied by its weight;
4. it gets its teleport term.

So the weight of node `n` multiplies only the pushes from the nodes visited up
to `n` (its own self-loop push included) and its dangling share
(`WeightAppliesAtVisit`; `Accumulate` is proved to compute `RawScores`). Pushes
from nodes visited after `n`, and the teleport term, are added unweighted.

With every weight 1 a pass is the standard PageRank update
(`UnitWeightsGivePageRankUpdate`), and the whole solve is the standard
PageRank power iteration `PageRankRun` (`UnitWeightsSolveIsPageRank`). Equal weights other than 1 need not give a
multiple of it: on a two-node cycle with both weights 2 the raw scores are
`[0.5, 0.75]` while the PageRank update is `[0.5, 0.5]`
(`EqualWeightsNeedNotRescale`).

## Model

| member | source | states |
|---|---|---|
| Normalization.Normalize | AgeBasedPR.py:6-9 | Succeeds exactly when the raw sum is non-zero; otherwise returns the `ZeroRawSum` error. On success it keeps the key set (the length), multiplies every entry by the one factor `target / raw`, and sums to `target`. |
| Normalization.NormalizeKeepsSign | AgeBasedPR.py:7-9 | With a positive raw sum: non-negative entries stay non-negative under a non-negative target, and positive entries stay positive under a positive target. |
| Normalization.NormalizePreservesRatios | AgeBasedPR.py:7-9 | Every ratio between entries is kept: `r[i] * d[j] == r[j] * d[i]` for all `i, j`. |
| AgeBasedPR.Uniform | AgeBasedPR.py:38-41 | The initial vector and the personalization vector: `N` positive entries summing to 1. |
| AgeBasedPR.DanglingNodesUpToExact | AgeBasedPR.py:44-48 | Among nodes `0 .. k-1`, the list holds exactly the nodes of out-degree 0, in increasing order. |
| AgeBasedPR.DanglingNodesExact | AgeBasedPR.py:44-48 | A node is in `dangling_nodes` if and only if its out-degree is 0. The list is strictly increasing, so no node appears twice. |
| AgeBasedPR.DanglingNodes | AgeBasedPR.py:48 | The list of dangling nodes: every entry is a node; `DanglingNodesExact` states which nodes it holds. |
| AgeBasedPR.DangleSum | AgeBasedPR.py:56 | Defines `danglesum` as `alpha` times the sum of the previous scores at the dangling list; `DangleSumIsDanglingPart` and `DangleSumNonNegative` state its properties. |
| AgeBasedPR.Portion | AgeBasedPR.py:59 | Defines what node `m` pushes along each out-edge, `alpha * xlast[m] / degree[m]`, and 0 for a dangling node (which has no out-edge to push along); `PortionsOutMass` and `PortionsNonNegative` state its properties. |
| AgeBasedPR.Portions | AgeBasedPR.py:59 | One pushed amount per node, as `Portion` gives it. |
| AgeBasedPR.ScoresAfterVisits | AgeBasedPR.py:55-62 | The vector after the first `k` visits of a pass, one entry per node; `Visit` is proved to move it from `k` to `k + 1` and `WeightAppliesAtVisit` states where the weight applies. |
| AgeBasedPR.RawScores | AgeBasedPR.py:55-62 | The vector after all `N` visits, before `normalize`, one entry per node; `Accumulate` is proved to compute it, and `UnitWeightsGivePageRankUpdate`, `RawScoresAtLeastTeleport` and `RawSumAtLeastTeleport` state its properties. |
| AgeBasedPR.Run | AgeBasedPR.py:51-66 | Defines the `while` loop from counter `iter`: stop when the counter reaches `max_iter` or the error is at most `N * tol`, otherwise make one pass; `RunFailsOnlyOnZeroSum`, `RunCounter`, `RunSumsToOne` and `RunNeverFails` state its properties. |
| AgeBasedPR.Solve | AgeBasedPR.py:29-68 | Defines the whole function: `EmptyGraph` for no nodes, else `Run` from the uniform vector, counter 0 and error `1e6`; `SolveEmptyGraph`, `SolveCounterAndExit` and `SolveNeverFails` state its properties. |
| AgeBasedPR.NextScores | AgeBasedPR.py:54-63 | One pass either fails only with `ZeroRawSum`, or returns one score per node summing to 1. |
| AgeBasedPR.L1Error | AgeBasedPR.py:65 | The L1 error is never negative, and is 0 exactly when the two vectors are equal. |
| AgeBasedPR.PushFrom | AgeBasedPR.py:58-59 | After the inner loop, every node has gained exactly what node `n` pushes to it: `alpha * xlast[n] / degree[n]` for each successor, 0 for every other node. |
| AgeBasedPR.Visit | AgeBasedPR.py:58-62 | Visiting node `n` takes the vector from the state after `n` visits to the state after `n + 1` visits. |
| AgeBasedPR.Accumulate | AgeBasedPR.py:55-62 | The fresh vector, after visiting every node in order, equals `RawScores` of the previous vector. |
| AgeBasedPR.PowerStep | AgeBasedPR.py:54-63 | One iteration fails exactly when `NextScores` does, and only with `ZeroRawSum`. Otherwise it returns the normalised `NextScores` vector. |
| AgeBasedPR.AgeBasedPageRank | AgeBasedPR.py:29-68 | The `while` loop returns exactly what `Solve` specifies. That includes the `EmptyGraph` error for a graph without nodes. |
| AgeBasedPRProperties.PushedMass | AgeBasedPR.py:58-59 | Pushing along the edges creates and loses no mass: what all nodes receive equals what all nodes send. |
| AgeBasedPRProperties.PortionsOutMass | AgeBasedPR.py:58-59 | A node with successors sends `alpha * xlast[m]` in total over its out-edges; a dangling node sends nothing. |
| AgeBasedPRProperties.LinkMass | AgeBasedPR.py:56-59 | The pushes of a pass deliver `alpha` times the scores of the nodes that have successors. |
| AgeBasedPRProperties.DangleSumIsDanglingPart | AgeBasedPR.py:48-56 | `danglesum` is `alpha` times the scores of exactly the dangling nodes. |
| AgeBasedPRProperties.ReceivedSplits | AgeBasedPR.py:60 | Spreading the dangling mass as `danglesum * (1/N)` to every node hands out exactly `danglesum`. |
| AgeBasedPRProperties.LinkAndDanglingMassConserved | AgeBasedPR.py:56-60 | Before any weighting, lines 59 and 60 together hand out exactly `alpha * sum(xlast)`. |
| AgeBasedPRProperties.WeightAppliesAtVisit | AgeBasedPR.py:57-62 | Right after its own push, node `n` holds the pushes of nodes `0 .. n`. Its final score is its weight times (that amount plus its dangling share), plus the unweighted teleport term, plus the unweighted pushes of nodes `n+1 ..`, with the held and later pushes adding up to everything it receives. |
| AgeBasedPRProperties.PageRankRun | AgeBasedPR.py:51-66 | Defines the reference loop: the `while` loop with the same stop rule, counter and L1 error, in which every pass is the standard PageRank update; `UnitWeightsRunIsPageRank` relates it to `Run`. |
| AgeBasedPRProperties.UnitWeightsRunIsPageRank | AgeBasedPR.py:51-66 | With every weight 1 and a start vector summing to 1, the loop never fails and returns exactly the vector, counter and error of the standard PageRank power iteration. |
| AgeBasedPRProperties.UnitWeightsSolveIsPageRank | AgeBasedPR.py:29-68 | With every weight 1 (`a = 0`), the solve returns exactly standard PageRank with uniform personalization, iterated from the uniform vector with counter 0 and error `1e6`. |
| AgeBasedPRProperties.EqualWeightsNeedNotRescale | AgeBasedPR.py:57-63 | On the cycle `0 -> 1 -> 0` with both weights 2, `alpha = 0.5` and previous vector `[0.5, 0.5]`, the raw scores are `[0.5, 0.75]`, the PageRank update is `[0.5, 0.5]`, and the pass returns `[0.4, 0.6]`: equal weights other than 1 need not rescale PageRank. |
| AgeBasedPRProperties.UnitWeightsGivePageRankStep | AgeBasedPR.py:57-62 | With every weight 1, visiting all nodes gives the standard PageRank step `PageRankStep`, whatever is pushed and whatever the dangling mass. |
| AgeBasedPRProperties.UnitWeightsGivePageRankUpdate | AgeBasedPR.py:54-62 | With every weight 1 (`a = 0`), the raw scores of a pass equal the standard PageRank update with uniform personalization. |
| AgeBasedPRProperties.PageRankStepSum | AgeBasedPR.py:60-62 | A standard PageRank step hands out the pushes and the dangling shares, plus `1 - alpha` in teleport terms. |
| AgeBasedPRProperties.TeleportMass | AgeBasedPR.py:62 | The `N` teleport terms `(1 - alpha) / N` add up to `1 - alpha`. |
| AgeBasedPRProperties.PageRankUpdateSum | AgeBasedPR.py:56-62 | A standard PageRank update hands out `alpha * sum(xlast) + (1 - alpha)`. |
| AgeBasedPRProperties.UnitWeightsRawSum | AgeBasedPR.py:56-62 | With every weight 1, the raw sum before `normalize` is `alpha * sum(xlast) + (1 - alpha)`. |
| AgeBasedPRProperties.UnitWeightsPassIsPageRankStep | AgeBasedPR.py:56-63 | With every weight 1 and `xlast` summing to 1, the raw sum is exactly 1, so `normalize` changes nothing; the pass is exactly the PageRank update. |
| AgeBasedPRProperties.PortionsNonNegative | AgeBasedPR.py:59 | With `alpha >= 0` and non-negative scores, every pushed amount is non-negative. |
| AgeBasedPRProperties.InflowNonNegative | AgeBasedPR.py:58-59 | Non-negative pushed amounts give a non-negative inflow into every node. |
| AgeBasedPRProperties.DangleSumNonNegative | AgeBasedPR.py:56 | With `alpha >= 0` and non-negative scores, `danglesum >= 0`. |
| AgeBasedPRProperties.ScoreAtLeastTeleport | AgeBasedPR.py:57-62 | With non-negative weights, pushes and dangling mass, a node's score at the end of a pass is at least its teleport term. |
| AgeBasedPRProperties.ScoresAtLeastTeleport | AgeBasedPR.py:57-62 | The same bound for every node at once. |
| AgeBasedPRProperties.RawScoresAtLeastTeleport | AgeBasedPR.py:55-62 | With `0 <= alpha <= 1`, non-negative weights and non-negative `xlast`, every raw score is at least `(1 - alpha) / N`. |
| AgeBasedPRProperties.RawSumAtLeastTeleport | AgeBasedPR.py:55-62 | Under the same conditions, the raw sum is at least `1 - alpha`. |
| AgeBasedPRProperties.RawScoresPositive | AgeBasedPR.py:55-62 | With `0 <= alpha < 1`, every raw score is positive. |
| AgeBasedPRProperties.PassNeverDividesByZero | AgeBasedPR.py:55-63 | With `0 <= alpha < 1`, non-negative weights and non-negative `xlast`, the raw sum is at least `1 - alpha`, so `normalize` never divides by zero; every normalised score is positive. |
| AgeBasedPRProperties.RunFailsOnlyOnZeroSum | AgeBasedPR.py:53-66 | The only error the loop can raise is the zero raw sum. |
| AgeBasedPRProperties.RunCounter | AgeBasedPR.py:53-66 | The counter never decreases or passes `max_iter`. Stopping before `max_iter` means the last error is at most `N * tol`. Stopping at once returns the current vector and error. |
| AgeBasedPRProperties.RunSumsToOne | AgeBasedPR.py:63 | The returned vector sums to 1 whenever the starting vector does, because each pass ends with `normalize`. |
| AgeBasedPRProperties.RunNeverFails | AgeBasedPR.py:53-66 | With `0 <= alpha < 1` and non-negative weights, the loop starting from positive scores never fails and keeps every score positive. |
| AgeBasedPRProperties.SolveEmptyGraph | AgeBasedPR.py:29-38 | The solve fails with `EmptyGraph` if and only if the graph has no nodes. |
| AgeBasedPRProperties.SolveCounterAndExit | AgeBasedPR.py:38-66 | The counter starts at 0 and never passes `max_iter`. With `max_iter <= 0`, no pass is made and the uniform `1/N` vector is returned. Stopping before `max_iter` means the last L1 error is at most `N * tol`. The result has one score per node and sums to 1. |
| AgeBasedPRProperties.SolveNeverFails | AgeBasedPR.py:38-66 | For a non-empty graph, `0 <= alpha < 1` and non-negative weights, the solve never divides by zero, and every returned score is positive. |

## Left out

- Floating-point rounding: all values are exact reals, so the sums and the
  conservation laws hold exactly.
- Infinite and NaN scores: the weights are numpy floats (line 35), so inside
  the solver a zero raw sum makes `target / raw` (line 8) give infinite or NaN
  scores, with a warning and no exception. The loop goes on under the test at
  line 53 (a NaN error ends it), and returns such scores. Exact reals have no such
  values, so the model stops with `ZeroRawSum` in their place. This can only
  happen for `alpha` outside `[0, 1)` or negative weights (`SolveNeverFails`).
  A standalone `normalize` on plain Python floats does raise, as `Normalize`
  models.
- `np.exp` and the weight formula `1 + a * exp(-b * age)` (line 35) are not
  computed. The weights are an input sequence, one entry per node; a missing
  age is the precondition `|w| == |g|`. The lemmas that need signs assume the
  weights are non-negative, which `1 + a * exp(...)` with `a >= 0` gives.
- Age monotonicity (a younger node never gets a smaller weight) is not
  modelled, because the weights are inputs and `exp` is not modelled.
- networkx graph construction and attribute mutation (lines 31 and 34-35):
  the graph is a successor-list value, and the ages and weights are plain
  inputs.
- Dictionaries become sequences indexed by node position. Node ids other than
  `0 .. N-1` and any node order other than the graph's iteration order are
  not modelled.
- Parallel edges are excluded by `IsGraph`, as in a networkx `DiGraph`.
- Printing the iteration count (line 67) is I/O. The count, and the last L1
  error, are returned instead in `Solution` as diagnostics. The original
  returns only the score dictionary.
- The module-level example (lines 70-76) is demo wiring.
- Convergence rates: no claim that the error ever falls below `N * tol`. The
  code promises only the loop bound and the exit condition.
- `Visit` computes the node's new value in locals and then stores it once. The
  original updates `x[n]` three times in place (lines 60-62). The arithmetic
  is the same, and no other entry is touched in between.
- `AgeBasedPageRank` takes a fresh array for each pass, as the original
  builds a fresh dictionary. Aliasing between `x` and `xlast` does not arise
  and is not modelled.
