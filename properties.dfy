/** What the power iteration guarantees: where the mass of a pass goes, which
    part of it each node's weight multiplies, why no division by zero can
    happen for a damping factor in [0, 1) and non-negative weights, and what
    the loop promises about its counter, its exit and its result. */
module AgeBasedPRProperties {
  import opened Sums
  import opened Results
  import opened Normalization
  import opened AgeBasedPR

  /** What every node has received from the pushes of the nodes `0 .. k-1`,
      when every node `m` sends `q[m]` along each out-edge. */
  function InflowVector(g: Graph, q: seq<real>, k: nat): (r: seq<real>)
    requires k <= |g| && |q| == |g|
    ensures |r| == |g|
  {
    seq(|g|, n requires 0 <= n < |g| => Inflow(g, q, 0, k, n))
  }

  /** What node `m` pushes to every node. */
  function ShareVector(g: Graph, q: seq<real>, m: nat): (r: seq<real>)
    requires m < |g| && |q| == |g|
    ensures |r| == |g|
  {
    seq(|g|, n requires 0 <= n < |g| => Share(g, q, m, n))
  }

  /** Row `m` is what node `m` pushes, for the nodes `0 .. k-1`. */
  function ShareRows(g: Graph, q: seq<real>, k: nat): (r: seq<seq<real>>)
    requires k <= |g| && |q| == |g|
    ensures |r| == k && forall m :: 0 <= m < k ==> |r[m]| == |g|
  {
    seq(k, m requires 0 <= m < k => ShareVector(g, q, m))
  }

  /** What every node sends in total: its portion once per out-edge. */
  function OutMass(g: Graph, q: seq<real>): (r: seq<real>)
    requires |q| == |g|
    ensures |r| == |g|
  {
    seq(|g|, m requires 0 <= m < |g| => (|g[m]| as real) * q[m])
  }

  /** The scores of the nodes that have successors (zero elsewhere). */
  function LinkedPart(g: Graph, xlast: seq<real>): (r: seq<real>)
    requires |xlast| == |g|
    ensures |r| == |g|
  {
    seq(|g|, m requires 0 <= m < |g| => if |g[m]| > 0 then xlast[m] else 0.0)
  }

  /** The scores of the dangling nodes among `0 .. k-1` (zero elsewhere). */
  function DanglingPart(g: Graph, xlast: seq<real>, k: nat): (r: seq<real>)
    requires k <= |g| && |xlast| == |g|
    ensures |r| == k
  {
    seq(k, m requires 0 <= m < k => if |g[m]| == 0 then xlast[m] else 0.0)
  }

  /** The mass each node gets from the pushes of a pass and its dangling
      share `ds / N`, before any weighting. */
  function Received(g: Graph, q: seq<real>, ds: real): (r: seq<real>)
    requires |g| > 0 && |q| == |g|
    ensures |r| == |g|
  {
    seq(|g|, n requires 0 <= n < |g| => Inflow(g, q, 0, |g|, n) + ds * (1.0 / (|g| as real)))
  }

  /** The update of standard PageRank with personalization and dangling
      weight `p` for every node: every node gets what all its predecessors
      push, its dangling share and its teleport term, nothing weighted. */
  function PageRankStep(g: Graph, alpha: real, p: real, q: seq<real>, ds: real): (r: seq<real>)
    requires |g| > 0 && |q| == |g|
    ensures |r| == |g|
  {
    seq(|g|, n requires 0 <= n < |g| => Inflow(g, q, 0, |g|, n) + ds * p + (1.0 - alpha) * p)
  }

  /** The standard PageRank update from the previous vector `xlast`. */
  function PageRankUpdate(g: Graph, alpha: real, xlast: seq<real>): (r: seq<real>)
    requires |g| > 0 && |xlast| == |g|
    ensures |r| == |g|
  {
    PageRankStep(g, alpha, 1.0 / (|g| as real), Portions(g, alpha, xlast), DangleSum(g, alpha, xlast))
  }

  /** The power iteration of standard PageRank: the loop of `Run`, with the
      same stop rule and the same error, in which every pass is
      `PageRankUpdate`. */
  function PageRankRun(g: Graph, alpha: real, maxIter: int, tol: real,
                       x: seq<real>, iter: int, err: real): Solution
    requires |g| > 0 && |x| == |g|
    decreases maxIter - iter
  {
    if iter < maxIter && err > (|g| as real) * tol then
      var next := PageRankUpdate(g, alpha, x);
      PageRankRun(g, alpha, maxIter, tol, next, iter + 1, L1Error(next, x))
    else
      Solution(x, iter, err)
  }

  predicate NonNegative(s: seq<real>)
  {
    forall i :: 0 <= i < |s| ==> s[i] >= 0.0
  }

  predicate Positive(s: seq<real>)
  {
    forall i :: 0 <= i < |s| ==> s[i] > 0.0
  }

  // ---------------------------------------------------------------------
  // Arithmetic steps, each kept apart from the sequence facts around it.

  lemma DegreeTimesShare(d: nat, a: real)
    requires d > 0
    ensures (d as real) * (a * 1.0 / (d as real)) == a
  {
  }

  lemma CountTimesFraction(n: nat, c: real)
    requires n > 0
    ensures (n as real) * (c * (1.0 / (n as real))) == c
  {
  }

  lemma ProductPositive(a: real, b: real)
    requires a > 0.0 && b > 0.0
    ensures a * b > 0.0
  {
  }

  lemma ProductNonNegative(a: real, b: real)
    requires a >= 0.0 && b >= 0.0
    ensures a * b >= 0.0
  {
  }

  lemma SharePositiveParts(alpha: real, x: real, d: nat)
    requires alpha >= 0.0 && x >= 0.0 && d > 0
    ensures alpha * x * 1.0 / (d as real) >= 0.0
  {
  }

  // ---------------------------------------------------------------------
  // Conservation of mass.

  /** Splitting the pushing nodes at `mid` splits what `n` receives. */
  lemma {:induction false} InflowSplit(g: Graph, q: seq<real>, lo: nat, mid: nat, hi: nat, n: nat)
    requires lo <= mid <= hi <= |g| && |q| == |g|
    ensures Inflow(g, q, lo, hi, n) == Inflow(g, q, lo, mid, n) + Inflow(g, q, mid, hi, n)
    decreases hi
  {
    if hi > mid {
      InflowSplit(g, q, lo, mid, hi - 1, n);
    }
  }

  /** Node `m` pushes its portion once to each of its distinct successors. */
  lemma ShareColumn(g: Graph, q: seq<real>, m: nat)
    requires IsGraph(g) && m < |g| && |q| == |g|
    ensures Sum(ShareVector(g, q, m)) == OutMass(g, q)[m]
  {
    SumIndicator(g[m], q[m], ShareVector(g, q, m));
  }

  /** What node `n` receives from the nodes `0 .. k-1` is column `n` of
      their pushes. */
  lemma {:induction false} InflowIsColumnSum(g: Graph, q: seq<real>, k: nat, n: nat)
    requires k <= |g| && |q| == |g| && n < |g|
    ensures Inflow(g, q, 0, k, n) == ColumnSum(ShareRows(g, q, k), n)
  {
    if k > 0 {
      InflowIsColumnSum(g, q, k - 1, n);
      assert ShareRows(g, q, k)[..k - 1] == ShareRows(g, q, k - 1);
    }
  }

  lemma InflowVectorIsColumnSums(g: Graph, q: seq<real>)
    requires |q| == |g|
    ensures InflowVector(g, q, |g|) == ColumnSums(ShareRows(g, q, |g|), |g|)
  {
    forall n | 0 <= n < |g|
      ensures InflowVector(g, q, |g|)[n] == ColumnSums(ShareRows(g, q, |g|), |g|)[n]
    {
      InflowIsColumnSum(g, q, |g|, n);
    }
  }

  lemma RowSumsAreOutMass(g: Graph, q: seq<real>)
    requires IsGraph(g) && |q| == |g|
    ensures RowSums(ShareRows(g, q, |g|)) == OutMass(g, q)
  {
    forall m | 0 <= m < |g|
      ensures RowSums(ShareRows(g, q, |g|))[m] == OutMass(g, q)[m]
    {
      ShareColumn(g, q, m);
    }
  }

  /** Pushing along the edges moves mass without creating or losing any:
      what all nodes receive is what all nodes send. */
  lemma PushedMass(g: Graph, q: seq<real>)
    requires IsGraph(g) && |q| == |g|
    ensures Sum(InflowVector(g, q, |g|)) == Sum(OutMass(g, q))
  {
    InflowVectorIsColumnSums(g, q);
    SumExchange(ShareRows(g, q, |g|), |g|);
    RowSumsAreOutMass(g, q);
  }

  /** Sending `alpha * xlast[m] / degree[m]` along each of `degree[m]` edges
      sends `alpha * xlast[m]` in all; a dangling node sends nothing. */
  lemma PortionsOutMass(g: Graph, alpha: real, xlast: seq<real>)
    requires |xlast| == |g|
    ensures forall m :: 0 <= m < |g| ==>
              OutMass(g, Portions(g, alpha, xlast))[m] == LinkedPart(g, xlast)[m] * alpha
  {
    forall m | 0 <= m < |g|
      ensures OutMass(g, Portions(g, alpha, xlast))[m] == LinkedPart(g, xlast)[m] * alpha
    {
      if |g[m]| > 0 {
        DegreeTimesShare(|g[m]|, alpha * xlast[m]);
      }
    }
  }

  /** The pushes of a pass deliver, over all nodes, exactly `alpha` times
      the score held by the nodes that have successors. */
  lemma LinkMass(g: Graph, alpha: real, xlast: seq<real>)
    requires IsGraph(g) && |xlast| == |g|
    ensures Sum(InflowVector(g, Portions(g, alpha, xlast), |g|)) == Sum(Scaled(LinkedPart(g, xlast), alpha))
  {
    PushedMass(g, Portions(g, alpha, xlast));
    PortionsOutMass(g, alpha, xlast);
    assert OutMass(g, Portions(g, alpha, xlast)) == Scaled(LinkedPart(g, xlast), alpha);
  }

  /** Summing over the list of dangling nodes is summing the dangling part. */
  lemma {:induction false} DanglingSumIsDanglingPart(g: Graph, xlast: seq<real>, k: nat)
    requires k <= |g| && |xlast| == |g|
    ensures SumAt(xlast, DanglingNodesUpTo(g, k)) == Sum(DanglingPart(g, xlast, k))
  {
    if k > 0 {
      DanglingSumIsDanglingPart(g, xlast, k - 1);
      var last := DanglingListStep(g, xlast, k);
      DanglingPartStep(g, xlast, k, last);
    }
  }

  /** Node `k-1` adds its score to the sum over the dangling list exactly
      when it is dangling. */
  lemma DanglingListStep(g: Graph, xlast: seq<real>, k: nat) returns (last: real)
    requires 0 < k <= |g| && |xlast| == |g|
    ensures last == if |g[k - 1]| == 0 then xlast[k - 1] else 0.0
    ensures SumAt(xlast, DanglingNodesUpTo(g, k)) == SumAt(xlast, DanglingNodesUpTo(g, k - 1)) + last
  {
    var before := DanglingNodesUpTo(g, k - 1);
    if |g[k - 1]| == 0 {
      last := xlast[k - 1];
      var nodes := before + [k - 1];
      assert nodes == DanglingNodesUpTo(g, k);
      assert nodes[..|before|] == before;
    } else {
      last := 0.0;
      assert before + [] == before;
    }
  }

  lemma DanglingPartStep(g: Graph, xlast: seq<real>, k: nat, last: real)
    requires 0 < k <= |g| && |xlast| == |g|
    requires last == if |g[k - 1]| == 0 then xlast[k - 1] else 0.0
    ensures Sum(DanglingPart(g, xlast, k)) == Sum(DanglingPart(g, xlast, k - 1)) + last
  {
    assert DanglingPart(g, xlast, k)[..k - 1] == DanglingPart(g, xlast, k - 1);
  }

  /** The dangling mass is `alpha` times the scores of the dangling nodes. */
  lemma DangleSumIsDanglingPart(g: Graph, alpha: real, xlast: seq<real>)
    requires |xlast| == |g|
    ensures DangleSum(g, alpha, xlast) == Sum(Scaled(DanglingPart(g, xlast, |g|), alpha))
  {
    DangleSumScaled(g, alpha, xlast);
    ScaledDanglingSum(g, alpha, xlast);
  }

  lemma DangleSumScaled(g: Graph, alpha: real, xlast: seq<real>)
    requires |xlast| == |g|
    ensures DangleSum(g, alpha, xlast) == SumAt(Scaled(xlast, alpha), DanglingNodes(g))
  {
    SumAtScaled(xlast, DanglingNodes(g), alpha);
  }

  lemma ScaledDanglingSum(g: Graph, alpha: real, xlast: seq<real>)
    requires |xlast| == |g|
    ensures SumAt(Scaled(xlast, alpha), DanglingNodes(g)) == Sum(Scaled(DanglingPart(g, xlast, |g|), alpha))
  {
    DanglingSumIsDanglingPart(g, Scaled(xlast, alpha), |g|);
    DanglingPartScaled(g, alpha, xlast);
  }

  /** Scaling the scores scales the dangling part. */
  lemma DanglingPartScaled(g: Graph, alpha: real, xlast: seq<real>)
    requires |xlast| == |g|
    ensures DanglingPart(g, Scaled(xlast, alpha), |g|) == Scaled(DanglingPart(g, xlast, |g|), alpha)
  {
    forall m | 0 <= m < |g|
      ensures DanglingPart(g, Scaled(xlast, alpha), |g|)[m] == Scaled(DanglingPart(g, xlast, |g|), alpha)[m]
    {
      if |g[m]| > 0 {
        assert DanglingPart(g, xlast, |g|)[m] == 0.0;
      }
    }
  }

  /** Spreading the dangling mass evenly, `danglesum * (1/N)` to each node,
      hands out the dangling mass exactly. */
  lemma ReceivedSplits(g: Graph, q: seq<real>, ds: real)
    requires |g| > 0 && |q| == |g|
    ensures Sum(Received(g, q, ds)) == Sum(InflowVector(g, q, |g|)) + ds
  {
    var count := |g|;
    var spread := seq(count, _ => ds * (1.0 / (count as real)));
    SumPointwiseAdd(InflowVector(g, q, count), spread, Received(g, q, ds));
    SumConstant(spread, ds * (1.0 / (count as real)));
    CountTimesFraction(count, ds);
  }

  /** The pushes and the dangling shares together hand out every previous
      score times `alpha`. */
  lemma ReceivedIsScaled(g: Graph, alpha: real, xlast: seq<real>)
    requires IsGraph(g) && |g| > 0 && |xlast| == |g|
    ensures Sum(Received(g, Portions(g, alpha, xlast), DangleSum(g, alpha, xlast))) == Sum(Scaled(xlast, alpha))
  {
    ReceivedSplits(g, Portions(g, alpha, xlast), DangleSum(g, alpha, xlast));
    LinkMass(g, alpha, xlast);
    DangleSumIsDanglingPart(g, alpha, xlast);
    SumScaledAdd(LinkedPart(g, xlast), DanglingPart(g, xlast, |g|), xlast, alpha);
  }

  /** The pushes along the edges and the dangling shares together hand out
      exactly `alpha` times the previous total: link mass and dangling mass
      are both conserved. */
  lemma LinkAndDanglingMassConserved(g: Graph, alpha: real, xlast: seq<real>)
    requires IsGraph(g) && |g| > 0 && |xlast| == |g|
    ensures Sum(Received(g, Portions(g, alpha, xlast), DangleSum(g, alpha, xlast))) == alpha * Sum(xlast)
  {
    ReceivedIsScaled(g, alpha, xlast);
    SumScale(xlast, alpha, Scaled(xlast, alpha));
  }

  // ---------------------------------------------------------------------
  // Where the weight applies.

  /** Node `n`'s score at the end of a pass. Right after its own push it
      holds exactly the pushes of the nodes `0 .. n`, itself included; its
      weight multiplies that amount plus its dangling share; the teleport term
      and the pushes of the nodes visited after it, which with the held amount
      make up all it receives, are added unweighted. The first two clauses
      read this off the closed form `ScoreAfterVisits`; that the loop really
      computes the closed form is `Accumulate`'s loop proof (through `Visit`).
      The third clause, the split of all inflow at `n`, is proved here. */
  lemma WeightAppliesAtVisit(g: Graph, w: seq<real>, alpha: real, p: real, q: seq<real>, ds: real, n: nat)
    requires |g| > 0 && |w| == |g| && |q| == |g| && n < |g|
    ensures ScoreAfterVisits(g, w, alpha, p, q, ds, n, n) + Share(g, q, n, n) == Inflow(g, q, 0, n + 1, n)
    ensures ScoreAfterVisits(g, w, alpha, p, q, ds, |g|, n)
              == w[n] * (Inflow(g, q, 0, n + 1, n) + ds * p) + (1.0 - alpha) * p + Inflow(g, q, n + 1, |g|, n)
    ensures Inflow(g, q, 0, |g|, n) == Inflow(g, q, 0, n + 1, n) + Inflow(g, q, n + 1, |g|, n)
  {
    InflowSplit(g, q, 0, n + 1, |g|, n);
  }

  /** With every weight 1 (`a = 0`), the raw scores are the standard
      PageRank update. */
  lemma UnitWeightsGivePageRankUpdate(g: Graph, w: seq<real>, alpha: real, xlast: seq<real>)
    requires |g| > 0 && |w| == |g| && |xlast| == |g|
    requires forall n :: 0 <= n < |w| ==> w[n] == 1.0
    ensures RawScores(g, w, alpha, xlast) == PageRankUpdate(g, alpha, xlast)
  {
    UnitWeightsGivePageRankStep(g, w, alpha, 1.0 / (|g| as real), Portions(g, alpha, xlast), DangleSum(g, alpha, xlast));
  }

  /** With every weight 1 (`a = 0`), the raw scores add up to
      `alpha * Sum(xlast) + (1 - alpha)`, which is 1 when `xlast` sums to 1. */
  lemma UnitWeightsRawSum(g: Graph, w: seq<real>, alpha: real, xlast: seq<real>)
    requires IsGraph(g) && |g| > 0 && |w| == |g| && |xlast| == |g|
    requires forall n :: 0 <= n < |w| ==> w[n] == 1.0
    ensures Sum(RawScores(g, w, alpha, xlast)) == alpha * Sum(xlast) + (1.0 - alpha)
  {
    UnitWeightsGivePageRankUpdate(g, w, alpha, xlast);
    PageRankUpdateSum(g, alpha, xlast);
  }

  /** With every weight 1, a pass is the standard PageRank step, whatever is
      pushed and whatever the dangling mass. */
  lemma UnitWeightsGivePageRankStep(g: Graph, w: seq<real>, alpha: real, p: real, q: seq<real>, ds: real)
    requires |g| > 0 && |w| == |g| && |q| == |g|
    requires forall n :: 0 <= n < |w| ==> w[n] == 1.0
    ensures ScoresAfterVisits(g, w, alpha, p, q, ds, |g|) == PageRankStep(g, alpha, p, q, ds)
  {
    forall n | 0 <= n < |g|
      ensures ScoresAfterVisits(g, w, alpha, p, q, ds, |g|)[n] == PageRankStep(g, alpha, p, q, ds)[n]
    {
      UnitWeightAt(g, w, alpha, p, q, ds, n);
    }
  }

  lemma UnitWeightAt(g: Graph, w: seq<real>, alpha: real, p: real, q: seq<real>, ds: real, n: nat)
    requires |g| > 0 && |w| == |g| && |q| == |g| && n < |g| && w[n] == 1.0
    ensures ScoreAfterVisits(g, w, alpha, p, q, ds, |g|, n) == Inflow(g, q, 0, |g|, n) + ds * p + (1.0 - alpha) * p
  {
    WeightAppliesAtVisit(g, w, alpha, p, q, ds, n);
    UnitWeightScore(ScoreAfterVisits(g, w, alpha, p, q, ds, |g|, n), w[n],
                    Inflow(g, q, 0, n + 1, n), Inflow(g, q, n + 1, |g|, n), Inflow(g, q, 0, |g|, n),
                    ds * p, (1.0 - alpha) * p);
  }

  /** A score weighted by 1 is the unweighted sum of its parts. */
  lemma UnitWeightScore(score: real, weight: real, early: real, later: real, total: real, dangling: real, teleport: real)
    requires weight == 1.0 && total == early + later
    requires score == weight * (early + dangling) + teleport + later
    ensures score == total + dangling + teleport
  {
  }

  /** One standard PageRank step hands out what the pushes and the dangling
      shares hand out, plus `1 - alpha` as teleport terms. */
  lemma PageRankStepSum(g: Graph, alpha: real, q: seq<real>, ds: real)
    requires |g| > 0 && |q| == |g|
    ensures Sum(PageRankStep(g, alpha, 1.0 / (|g| as real), q, ds)) == Sum(Received(g, q, ds)) + (1.0 - alpha)
  {
    var teleport := seq(|g|, _ => (1.0 - alpha) * (1.0 / (|g| as real)));
    PageRankStepParts(g, alpha, q, ds, teleport);
    TeleportMass(|g|, alpha, teleport);
  }

  lemma PageRankStepParts(g: Graph, alpha: real, q: seq<real>, ds: real, teleport: seq<real>)
    requires |g| > 0 && |q| == |g| && |teleport| == |g|
    requires forall n :: 0 <= n < |g| ==> teleport[n] == (1.0 - alpha) * (1.0 / (|g| as real))
    ensures Sum(PageRankStep(g, alpha, 1.0 / (|g| as real), q, ds)) == Sum(Received(g, q, ds)) + Sum(teleport)
  {
    PageRankStepPointwise(g, alpha, q, ds);
    SumPointwiseAdd(Received(g, q, ds), teleport, PageRankStep(g, alpha, 1.0 / (|g| as real), q, ds));
  }

  lemma PageRankStepPointwise(g: Graph, alpha: real, q: seq<real>, ds: real)
    requires |g| > 0 && |q| == |g|
    ensures forall n :: 0 <= n < |g| ==>
              PageRankStep(g, alpha, 1.0 / (|g| as real), q, ds)[n] == Received(g, q, ds)[n] + (1.0 - alpha) * (1.0 / (|g| as real))
  {
  }

  /** The teleport terms `(1 - alpha) / N` of all `N` nodes add up to `1 - alpha`. */
  lemma TeleportMass(count: nat, alpha: real, teleport: seq<real>)
    requires count > 0 && |teleport| == count
    requires forall n :: 0 <= n < count ==> teleport[n] == (1.0 - alpha) * (1.0 / (count as real))
    ensures Sum(teleport) == 1.0 - alpha
  {
    SumConstant(teleport, (1.0 - alpha) * (1.0 / (count as real)));
    CountTimesFraction(count, 1.0 - alpha);
  }

  /** A standard PageRank update hands out `alpha * Sum(xlast) + (1 - alpha)`. */
  lemma PageRankUpdateSum(g: Graph, alpha: real, xlast: seq<real>)
    requires IsGraph(g) && |g| > 0 && |xlast| == |g|
    ensures Sum(PageRankUpdate(g, alpha, xlast)) == alpha * Sum(xlast) + (1.0 - alpha)
  {
    PageRankUpdateScaledSum(g, alpha, xlast);
    SumScale(xlast, alpha, Scaled(xlast, alpha));
  }

  lemma PageRankUpdateScaledSum(g: Graph, alpha: real, xlast: seq<real>)
    requires IsGraph(g) && |g| > 0 && |xlast| == |g|
    ensures Sum(PageRankUpdate(g, alpha, xlast)) == Sum(Scaled(xlast, alpha)) + (1.0 - alpha)
  {
    PageRankStepSum(g, alpha, Portions(g, alpha, xlast), DangleSum(g, alpha, xlast));
    ReceivedIsScaled(g, alpha, xlast);
  }

  /** With every weight 1 and a previous vector summing to 1, the raw scores
      already sum to 1, `normalize` changes nothing, and a pass is exactly a
      standard PageRank step. */
  lemma UnitWeightsPassIsPageRankStep(g: Graph, w: seq<real>, alpha: real, xlast: seq<real>)
    requires IsGraph(g) && |g| > 0 && |w| == |g| && |xlast| == |g|
    requires forall n :: 0 <= n < |w| ==> w[n] == 1.0
    requires Sum(xlast) == 1.0
    ensures Sum(RawScores(g, w, alpha, xlast)) == 1.0
    ensures NextScores(g, w, alpha, xlast) == Ok(PageRankUpdate(g, alpha, xlast))
  {
    UnitWeightsGivePageRankUpdate(g, w, alpha, xlast);
    PageRankUpdateScaledSum(g, alpha, xlast);
    ScaledUnitSum(xlast, alpha);
    NormalizeToOwnSum(PageRankUpdate(g, alpha, xlast));
  }

  /** With every weight 1 and a start vector summing to 1, the whole loop is
      the standard PageRank power iteration: it never fails, and it returns
      the vector, counter and error that `PageRankRun` does. */
  lemma {:induction false} UnitWeightsRunIsPageRank(g: Graph, w: seq<real>, alpha: real, maxIter: int, tol: real,
                                                    x: seq<real>, iter: int, err: real)
    requires IsGraph(g) && |g| > 0 && |w| == |g| && |x| == |g|
    requires forall n :: 0 <= n < |w| ==> w[n] == 1.0
    requires Sum(x) == 1.0
    ensures Run(g, w, alpha, maxIter, tol, x, iter, err) == Ok(PageRankRun(g, alpha, maxIter, tol, x, iter, err))
    decreases maxIter - iter
  {
    if iter < maxIter && err > (|g| as real) * tol {
      UnitWeightsPassIsPageRankStep(g, w, alpha, x);
      var next := PageRankUpdate(g, alpha, x);
      UnitWeightsRunIsPageRank(g, w, alpha, maxIter, tol, next, iter + 1, L1Error(next, x));
    }
  }

  /** With every weight 1 (`a = 0`), the whole solve is standard PageRank with
      uniform personalization, iterated from the uniform vector with counter 0
      and error `1.0e6`. */
  lemma UnitWeightsSolveIsPageRank(g: Graph, w: seq<real>, alpha: real, maxIter: int, tol: real)
    requires IsGraph(g) && |g| > 0 && |w| == |g|
    requires forall n :: 0 <= n < |w| ==> w[n] == 1.0
    ensures Solve(g, w, alpha, maxIter, tol)
              == Ok(PageRankRun(g, alpha, maxIter, tol, Uniform(|g|), 0, 1000000.0))
  {
    UnitWeightsRunIsPageRank(g, w, alpha, maxIter, tol, Uniform(|g|), 0, 1000000.0);
  }

  /** Equal weights other than 1 need not give a multiple of the PageRank
      update. On the cycle `0 -> 1 -> 0` with both weights 2, `alpha = 1/2`
      and the uniform previous vector, node 1 gets node 0's push before it is
      weighted, but node 0 gets node 1's push after it is weighted. The raw
      scores are `[0.5, 0.75]`, the PageRank update is `[0.5, 0.5]`, and the
      pass returns `[0.4, 0.6]`. */
  lemma EqualWeightsNeedNotRescale()
    ensures RawScores([[1], [0]], [2.0, 2.0], 0.5, [0.5, 0.5]) == [0.5, 0.75]
    ensures PageRankUpdate([[1], [0]], 0.5, [0.5, 0.5]) == [0.5, 0.5]
    ensures NextScores([[1], [0]], [2.0, 2.0], 0.5, [0.5, 0.5]) == Ok([0.4, 0.6])
  {
    var g: Graph := [[1], [0]];
    var xlast := [0.5, 0.5];
    assert DanglingNodesUpTo(g, 1) == [];
    assert DanglingNodes(g) == [];
    assert DangleSum(g, 0.5, xlast) == 0.0;
    var q := Portions(g, 0.5, xlast);
    assert q == [0.25, 0.25];
    assert Share(g, q, 0, 0) == 0.0 && Share(g, q, 0, 1) == 0.25;
    assert Share(g, q, 1, 0) == 0.25 && Share(g, q, 1, 1) == 0.0;
    assert Inflow(g, q, 0, 1, 0) == 0.0 && Inflow(g, q, 1, 2, 0) == 0.25 && Inflow(g, q, 0, 2, 0) == 0.25;
    assert Inflow(g, q, 0, 2, 1) == 0.25 && Inflow(g, q, 2, 2, 1) == 0.0;
    var raw := RawScores(g, [2.0, 2.0], 0.5, xlast);
    assert raw[0] == 0.5 && raw[1] == 0.75;
    assert raw == [0.5, 0.75];
    var pr := PageRankUpdate(g, 0.5, xlast);
    assert pr[0] == 0.5 && pr[1] == 0.5;
    assert Sum(raw) == 1.25 by {
      assert raw[..1] == [0.5];
      assert raw[..1][..0] == [];
      assert Sum(raw[..1]) == 0.5;
    }
    var next := Normalize(raw, 1.0).value;
    assert next[0] == 0.4 && next[1] == 0.6;
    assert next == [0.4, 0.6];
  }

  lemma ScaledUnitSum(s: seq<real>, k: real)
    requires Sum(s) == 1.0
    ensures Sum(Scaled(s, k)) == k
  {
    SumScale(s, k, Scaled(s, k));
  }

  /** Normalising a vector that already sums to 1 leaves it as it is. */
  lemma NormalizeToOwnSum(d: seq<real>)
    requires Sum(d) == 1.0
    ensures Normalize(d, 1.0) == Ok(d)
  {
    var r := Normalize(d, 1.0).value;
    assert r == d;
  }

  // ---------------------------------------------------------------------
  // Signs, and why `normalize` never divides by zero.

  lemma PortionsNonNegative(g: Graph, alpha: real, xlast: seq<real>)
    requires |xlast| == |g|
    requires alpha >= 0.0 && NonNegative(xlast)
    ensures NonNegative(Portions(g, alpha, xlast))
  {
    forall m | 0 <= m < |g|
      ensures Portions(g, alpha, xlast)[m] >= 0.0
    {
      if |g[m]| > 0 {
        SharePositiveParts(alpha, xlast[m], |g[m]|);
      }
    }
  }

  lemma {:induction false} InflowNonNegative(g: Graph, q: seq<real>, lo: nat, hi: nat, n: nat)
    requires hi <= |g| && |q| == |g| && NonNegative(q)
    ensures Inflow(g, q, lo, hi, n) >= 0.0
    decreases hi
  {
    if hi > lo {
      InflowNonNegative(g, q, lo, hi - 1, n);
    }
  }

  lemma DangleSumNonNegative(g: Graph, alpha: real, xlast: seq<real>)
    requires |xlast| == |g|
    requires alpha >= 0.0 && NonNegative(xlast)
    ensures DangleSum(g, alpha, xlast) >= 0.0
  {
    var part := DanglingPart(g, xlast, |g|);
    DanglingSumIsDanglingPart(g, xlast, |g|);
    assert NonNegative(part);
    SumNonNegative(part);
    ProductNonNegative(alpha, SumAt(xlast, DanglingNodes(g)));
  }

  /** For `0 <= alpha <= 1`, non-negative weights and a non-negative previous
      vector, every raw score is at least its teleport term `(1 - alpha) / N`. */
  lemma RawScoresAtLeastTeleport(g: Graph, w: seq<real>, alpha: real, xlast: seq<real>)
    requires |g| > 0 && |w| == |g| && |xlast| == |g|
    requires 0.0 <= alpha <= 1.0 && NonNegative(w) && NonNegative(xlast)
    ensures forall n :: 0 <= n < |g| ==>
              RawScores(g, w, alpha, xlast)[n] >= (1.0 - alpha) * (1.0 / (|g| as real))
  {
    DangleSumNonNegative(g, alpha, xlast);
    PortionsNonNegative(g, alpha, xlast);
    ScoresAtLeastTeleport(g, w, alpha, 1.0 / (|g| as real), Portions(g, alpha, xlast), DangleSum(g, alpha, xlast));
  }

  /** The bound above for any non-negative pushes and dangling mass. */
  lemma ScoresAtLeastTeleport(g: Graph, w: seq<real>, alpha: real, p: real, q: seq<real>, ds: real)
    requires |g| > 0 && |w| == |g| && |q| == |g|
    requires NonNegative(w) && NonNegative(q) && ds >= 0.0 && p >= 0.0
    ensures forall n :: 0 <= n < |g| ==>
              ScoresAfterVisits(g, w, alpha, p, q, ds, |g|)[n] >= (1.0 - alpha) * p
  {
    forall n | 0 <= n < |g|
      ensures ScoresAfterVisits(g, w, alpha, p, q, ds, |g|)[n] >= (1.0 - alpha) * p
    {
      ScoreAtLeastTeleport(g, w, alpha, p, q, ds, n);
    }
  }

  lemma ScoreAtLeastTeleport(g: Graph, w: seq<real>, alpha: real, p: real, q: seq<real>, ds: real, n: nat)
    requires |g| > 0 && |w| == |g| && |q| == |g| && n < |g|
    requires NonNegative(w) && NonNegative(q) && ds >= 0.0 && p >= 0.0
    ensures ScoreAfterVisits(g, w, alpha, p, q, ds, |g|, n) >= (1.0 - alpha) * p
  {
    InflowNonNegative(g, q, 0, n + 1, n);
    InflowNonNegative(g, q, n + 1, |g|, n);
    WeightAppliesAtVisit(g, w, alpha, p, q, ds, n);
    WeightedAtLeastTeleport(ScoreAfterVisits(g, w, alpha, p, q, ds, |g|, n), w[n],
                            Inflow(g, q, 0, n + 1, n), Inflow(g, q, n + 1, |g|, n), ds, p, (1.0 - alpha) * p);
  }

  /** A non-negative weight times non-negative parts, plus the teleport term
      and a non-negative rest, is at least the teleport term. */
  lemma WeightedAtLeastTeleport(score: real, weight: real, early: real, later: real, ds: real, p: real, teleport: real)
    requires weight >= 0.0 && early >= 0.0 && later >= 0.0 && ds >= 0.0 && p >= 0.0
    requires score == weight * (early + ds * p) + teleport + later
    ensures score >= teleport
  {
    var dangling := ds * p;
    ProductNonNegative(ds, p);
    var weighted := weight * (early + dangling);
    ProductNonNegative(weight, early + dangling);
    assert score == weighted + teleport + later;
  }

  /** For `0 <= alpha < 1`, non-negative weights and a non-negative previous
      vector, the raw sum is at least `1 - alpha > 0`, so `normalize`
      succeeds, and every normalised score is positive. */
  lemma PassNeverDividesByZero(g: Graph, w: seq<real>, alpha: real, xlast: seq<real>)
    requires |g| > 0 && |w| == |g| && |xlast| == |g|
    requires 0.0 <= alpha < 1.0 && NonNegative(w) && NonNegative(xlast)
    ensures Sum(RawScores(g, w, alpha, xlast)) >= 1.0 - alpha
    ensures NextScores(g, w, alpha, xlast).Ok?
    ensures Positive(NextScores(g, w, alpha, xlast).value)
  {
    RawSumAtLeastTeleport(g, w, alpha, xlast);
    RawScoresPositive(g, w, alpha, xlast);
    NormalizeKeepsSign(RawScores(g, w, alpha, xlast), 1.0);
  }

  /** The raw scores add up to at least the `N` teleport terms, `1 - alpha`. */
  lemma RawSumAtLeastTeleport(g: Graph, w: seq<real>, alpha: real, xlast: seq<real>)
    requires |g| > 0 && |w| == |g| && |xlast| == |g|
    requires 0.0 <= alpha <= 1.0 && NonNegative(w) && NonNegative(xlast)
    ensures Sum(RawScores(g, w, alpha, xlast)) >= 1.0 - alpha
  {
    var teleport := seq(|g|, _ => (1.0 - alpha) * (1.0 / (|g| as real)));
    RawScoresAtLeastTeleport(g, w, alpha, xlast);
    SumMonotone(teleport, RawScores(g, w, alpha, xlast));
    TeleportMass(|g|, alpha, teleport);
  }

  /** For `alpha < 1` every raw score is positive. */
  lemma RawScoresPositive(g: Graph, w: seq<real>, alpha: real, xlast: seq<real>)
    requires |g| > 0 && |w| == |g| && |xlast| == |g|
    requires 0.0 <= alpha < 1.0 && NonNegative(w) && NonNegative(xlast)
    ensures Positive(RawScores(g, w, alpha, xlast))
  {
    RawScoresAtLeastTeleport(g, w, alpha, xlast);
    ProductPositive(1.0 - alpha, 1.0 / (|g| as real));
  }

  // ---------------------------------------------------------------------
  // The loop.

  /** The only error a pass can raise is the zero raw sum. */
  lemma {:induction false} RunFailsOnlyOnZeroSum(g: Graph, w: seq<real>, alpha: real, maxIter: int, tol: real,
                                                 x: seq<real>, iter: int, err: real)
    requires |g| > 0 && |w| == |g| && |x| == |g|
    ensures Run(g, w, alpha, maxIter, tol, x, iter, err).Err? ==>
              Run(g, w, alpha, maxIter, tol, x, iter, err).error == ZeroRawSum
    decreases maxIter - iter
  {
    if iter < maxIter && err > (|g| as real) * tol {
      var next := NextScores(g, w, alpha, x);
      if next.Ok? {
        RunFailsOnlyOnZeroSum(g, w, alpha, maxIter, tol, next.value, iter + 1, L1Error(next.value, x));
      }
    }
  }

  /** From pass `iter` on, the counter only grows, stops at `max_iter`
      (unless it started past it), stopping early means the error was within
      `N * tol`, and stopping at once returns the current vector and error. */
  lemma {:induction false} RunCounter(g: Graph, w: seq<real>, alpha: real, maxIter: int, tol: real,
                                      x: seq<real>, iter: int, err: real)
    requires |g| > 0 && |w| == |g| && |x| == |g|
    ensures var r := Run(g, w, alpha, maxIter, tol, x, iter, err);
            r.Ok? ==>
              && iter <= r.value.iterations
              && (r.value.iterations <= maxIter || r.value.iterations == iter)
              && (r.value.iterations < maxIter ==> r.value.lastError <= (|g| as real) * tol)
              && (r.value.iterations == iter ==> r.value.scores == x && r.value.lastError == err)
              && |r.value.scores| == |g|
    decreases maxIter - iter
  {
    if iter < maxIter && err > (|g| as real) * tol {
      var next := NextScores(g, w, alpha, x);
      if next.Ok? {
        RunCounter(g, w, alpha, maxIter, tol, next.value, iter + 1, L1Error(next.value, x));
      }
    }
  }

  /** The returned vector sums to 1 whenever the starting one does: every
      pass ends with `normalize`. */
  lemma {:induction false} RunSumsToOne(g: Graph, w: seq<real>, alpha: real, maxIter: int, tol: real,
                                        x: seq<real>, iter: int, err: real)
    requires |g| > 0 && |w| == |g| && |x| == |g|
    requires Sum(x) == 1.0
    ensures var r := Run(g, w, alpha, maxIter, tol, x, iter, err);
            r.Ok? ==> Sum(r.value.scores) == 1.0
    decreases maxIter - iter
  {
    if iter < maxIter && err > (|g| as real) * tol {
      var next := NextScores(g, w, alpha, x);
      if next.Ok? {
        RunSumsToOne(g, w, alpha, maxIter, tol, next.value, iter + 1, L1Error(next.value, x));
      }
    }
  }

  /** For `0 <= alpha < 1` and non-negative weights, the loop never fails and
      keeps every score positive. */
  lemma {:induction false} RunNeverFails(g: Graph, w: seq<real>, alpha: real, maxIter: int, tol: real,
                                         x: seq<real>, iter: int, err: real)
    requires |g| > 0 && |w| == |g| && |x| == |g|
    requires 0.0 <= alpha < 1.0 && NonNegative(w) && Positive(x)
    ensures Run(g, w, alpha, maxIter, tol, x, iter, err).Ok?
    ensures Positive(Run(g, w, alpha, maxIter, tol, x, iter, err).value.scores)
    decreases maxIter - iter
  {
    if iter < maxIter && err > (|g| as real) * tol {
      PassNeverDividesByZero(g, w, alpha, x);
      var next := NextScores(g, w, alpha, x).value;
      RunNeverFails(g, w, alpha, maxIter, tol, next, iter + 1, L1Error(next, x));
    }
  }

  /** An empty graph is the one input error: the solve fails with `EmptyGraph`
      exactly when there are no nodes. */
  lemma SolveEmptyGraph(g: Graph, w: seq<real>, alpha: real, maxIter: int, tol: real)
    requires |w| == |g|
    ensures Solve(g, w, alpha, maxIter, tol) == Err(EmptyGraph) <==> |g| == 0
  {
    if |g| > 0 {
      RunFailsOnlyOnZeroSum(g, w, alpha, maxIter, tol, Uniform(|g|), 0, 1000000.0);
    }
  }

  /** The iteration counter starts at 0 and never passes `max_iter`; with
      `max_iter <= 0` no pass is made and the uniform vector is returned; a
      solve that stops before `max_iter` passes has L1 error at most `N * tol`;
      and the returned vector has one score per node summing to 1. */
  lemma SolveCounterAndExit(g: Graph, w: seq<real>, alpha: real, maxIter: int, tol: real)
    requires |w| == |g|
    ensures var r := Solve(g, w, alpha, maxIter, tol);
            r.Ok? ==>
              && 0 <= r.value.iterations
              && (maxIter > 0 ==> r.value.iterations <= maxIter)
              && (maxIter <= 0 ==> r.value.iterations == 0)
              && (r.value.iterations < maxIter ==> r.value.lastError <= (|g| as real) * tol)
              && (r.value.iterations == 0 ==> r.value.scores == Uniform(|g|) && r.value.lastError == 1000000.0)
              && |r.value.scores| == |g|
              && Sum(r.value.scores) == 1.0
  {
    if |g| > 0 {
      RunCounter(g, w, alpha, maxIter, tol, Uniform(|g|), 0, 1000000.0);
      RunSumsToOne(g, w, alpha, maxIter, tol, Uniform(|g|), 0, 1000000.0);
    }
  }

  /** For a non-empty graph, `0 <= alpha < 1` and non-negative weights, the
      solve never divides by zero and every returned score is positive. */
  lemma SolveNeverFails(g: Graph, w: seq<real>, alpha: real, maxIter: int, tol: real)
    requires |w| == |g| && |g| > 0
    requires 0.0 <= alpha < 1.0 && NonNegative(w)
    ensures Solve(g, w, alpha, maxIter, tol).Ok?
    ensures Positive(Solve(g, w, alpha, maxIter, tol).value.scores)
  {
    RunNeverFails(g, w, alpha, maxIter, tol, Uniform(|g|), 0, 1000000.0);
  }
}
