/** The age-weighted PageRank power iteration of `AgeBasedPR(G, ages, a, b,
    alpha, max_iter, tol)`.

    Nodes are `0 .. N-1`, numbered in the graph's iteration order; the graph is
    the successor list of each node, and the out-degree of a node is the length
    of its list. `NodeWeight` (`1 + a * exp(-b * age)`) is computed by the
    caller and passed in as `w`, one entry per node. Scores are exact reals. */
module AgeBasedPR {
  import opened Sums
  import opened Results
  import opened Normalization

  type Graph = seq<seq<nat>>

  /** A directed graph without parallel edges: every successor is a node, and
      no successor is listed twice. */
  predicate IsGraph(g: Graph)
  {
    && (forall m, i :: 0 <= m < |g| && 0 <= i < |g[m]| ==> g[m][i] < |g|)
    && (forall m, i, j :: 0 <= m < |g| && 0 <= i < j < |g[m]| ==> g[m][i] != g[m][j])
  }

  /** What a solve returns: the score vector, and as diagnostics the number of
      passes made (the value the original prints) and the last L1 error. */
  datatype Solution = Solution(scores: seq<real>, iterations: int, lastError: real)

  /** The initial vector and the personalization vector: `1/N` everywhere. */
  function Uniform(n: nat): (u: seq<real>)
    requires n > 0
    ensures |u| == n
    ensures forall i :: 0 <= i < n ==> u[i] > 0.0
    ensures Sum(u) == 1.0
  {
    var u := seq(n, _ => 1.0 / (n as real));
    SumConstant(u, 1.0 / (n as real));
    u
  }

  /** The dangling nodes among `0 .. k-1`, in node order. */
  function DanglingNodesUpTo(g: Graph, k: nat): (r: seq<nat>)
    requires k <= |g|
    ensures forall i :: 0 <= i < |r| ==> r[i] < k
  {
    if k == 0 then []
    else DanglingNodesUpTo(g, k - 1) + (if |g[k - 1]| == 0 then [k - 1] else [])
  }

  /** The dangling nodes: every node of out-degree zero, in node order. */
  function DanglingNodes(g: Graph): (r: seq<nat>)
    ensures forall i :: 0 <= i < |r| ==> r[i] < |g|
  {
    DanglingNodesUpTo(g, |g|)
  }

  /** The list holds exactly the nodes of out-degree zero among `0 .. k-1`,
      each once, in increasing order; so a dangling node is never divided by
      its degree and no node of positive degree is treated as dangling. */
  lemma {:induction false} DanglingNodesUpToExact(g: Graph, k: nat)
    requires k <= |g|
    ensures var r := DanglingNodesUpTo(g, k);
            (forall i :: 0 <= i < |r| ==> |g[r[i]]| == 0)
            && (forall n :: 0 <= n < k && |g[n]| == 0 ==> n in r)
            && (forall i, j :: 0 <= i < j < |r| ==> r[i] < r[j])
  {
    if k > 0 {
      DanglingNodesUpToExact(g, k - 1);
    }
  }

  /** `dangling_nodes` is exactly the nodes of out-degree zero, in node order. */
  lemma DanglingNodesExact(g: Graph)
    ensures forall n :: 0 <= n < |g| ==> (n in DanglingNodes(g) <==> |g[n]| == 0)
    ensures forall i, j :: 0 <= i < j < |DanglingNodes(g)| ==> DanglingNodes(g)[i] < DanglingNodes(g)[j]
  {
    DanglingNodesUpToExact(g, |g|);
    var r := DanglingNodes(g);
    assert r == DanglingNodesUpTo(g, |g|);
    forall n | 0 <= n < |g| && n in r
      ensures |g[n]| == 0
    {
      var i :| 0 <= i < |r| && r[i] == n;
    }
  }

  /** The dangling mass of a pass: `alpha` times the scores the dangling
      nodes held in the previous vector. */
  function DangleSum(g: Graph, alpha: real, xlast: seq<real>): real
    requires |xlast| == |g|
  {
    alpha * SumAt(xlast, DanglingNodes(g))
  }

  /** What node `m` sends along each of its out-edges: `alpha` times its
      previous score divided by its out-degree. A dangling node has no
      out-edge and sends nothing. */
  function Portion(g: Graph, alpha: real, xlast: seq<real>, m: nat): real
    requires m < |g| && |xlast| == |g|
  {
    if |g[m]| == 0 then 0.0 else alpha * xlast[m] * 1.0 / (|g[m]| as real)
  }

  /** The portion of every node. */
  function Portions(g: Graph, alpha: real, xlast: seq<real>): (q: seq<real>)
    requires |xlast| == |g|
    ensures |q| == |g|
  {
    seq(|g|, m requires 0 <= m < |g| => Portion(g, alpha, xlast, m))
  }

  /** What node `m` pushes to node `n`, when every node `m` sends `q[m]`
      along each out-edge. */
  function Share(g: Graph, q: seq<real>, m: nat, n: nat): real
    requires m < |g| && |q| == |g|
  {
    if n in g[m] then q[m] else 0.0
  }

  /** The mass pushed into `n` by the nodes `lo .. hi-1`. */
  function Inflow(g: Graph, q: seq<real>, lo: nat, hi: nat, n: nat): real
    requires hi <= |g| && |q| == |g|
    decreases hi
  {
    if hi <= lo then 0.0 else Inflow(g, q, lo, hi - 1, n) + Share(g, q, hi - 1, n)
  }

  /** The value of `x[n]` once the nodes `0 .. k-1` have been visited, in a
      pass where node `m` pushes `q[m]` along each of its edges, the dangling
      mass is `ds` and every node's personalization and dangling weight is
      `p`. A node not yet visited holds what the visited nodes pushed into
      it. A visited node holds its weight times what it had received when it
      was visited (pushes from itself and earlier nodes, then its dangling
      share), plus the unweighted teleport term, plus what later nodes pushed
      into it. */
  function ScoreAfterVisits(g: Graph, w: seq<real>, alpha: real, p: real, q: seq<real>, ds: real, k: nat, n: nat): real
    requires |g| > 0 && |w| == |g| && |q| == |g| && k <= |g| && n < |g|
  {
    if n < k then
      w[n] * (Inflow(g, q, 0, n + 1, n) + ds * p)
        + (1.0 - alpha) * p
        + Inflow(g, q, n + 1, k, n)
    else
      Inflow(g, q, 0, k, n)
  }

  /** The whole vector once the nodes `0 .. k-1` have been visited. */
  function ScoresAfterVisits(g: Graph, w: seq<real>, alpha: real, p: real, q: seq<real>, ds: real, k: nat): (r: seq<real>)
    requires |g| > 0 && |w| == |g| && |q| == |g| && k <= |g|
    ensures |r| == |g|
  {
    seq(|g|, n requires 0 <= n < |g| => ScoreAfterVisits(g, w, alpha, p, q, ds, k, n))
  }

  /** The scores of one pass before they are normalised: every node visited,
      with the dangling mass computed once from the previous vector. */
  function RawScores(g: Graph, w: seq<real>, alpha: real, xlast: seq<real>): (r: seq<real>)
    requires |g| > 0 && |w| == |g| && |xlast| == |g|
    ensures |r| == |g|
  {
    ScoresAfterVisits(g, w, alpha, 1.0 / (|g| as real), Portions(g, alpha, xlast), DangleSum(g, alpha, xlast), |g|)
  }

  /** `v` with what node `k` pushes added to every entry. */
  function AddShares(g: Graph, q: seq<real>, k: nat, v: seq<real>): (r: seq<real>)
    requires k < |g| && |q| == |g| && |v| == |g|
    ensures |r| == |g|
  {
    seq(|g|, m requires 0 <= m < |g| => v[m] + Share(g, q, k, m))
  }

  /** One pass: the raw scores, normalised to sum to 1. */
  function NextScores(g: Graph, w: seq<real>, alpha: real, xlast: seq<real>): (r: Result<seq<real>>)
    requires |g| > 0 && |w| == |g| && |xlast| == |g|
    ensures r.Ok? ==> |r.value| == |g| && Sum(r.value) == 1.0
    ensures r.Err? ==> r.error == ZeroRawSum
  {
    Normalize(RawScores(g, w, alpha, xlast), 1.0)
  }

  function Abs(v: real): real
  {
    if v < 0.0 then -v else v
  }

  /** The L1 distance, the sum of the absolute entry-wise differences: never
      negative, and zero exactly when the two vectors agree. */
  function L1Error(x: seq<real>, xlast: seq<real>): (e: real)
    requires |x| == |xlast|
    ensures e >= 0.0
    ensures e == 0.0 <==> x == xlast
    decreases |x|
  {
    if |x| == 0 then 0.0
    else
      var k := |x| - 1;
      assert x == x[..k] + [x[k]] && xlast == xlast[..k] + [xlast[k]];
      L1Error(x[..k], xlast[..k]) + Abs(x[k] - xlast[k])
  }

  /** The `while` loop from pass `iter` on, with current vector `x` and last
      error `err`: stop when `max_iter` passes are made or the error is at
      most `N * tol`. */
  function Run(g: Graph, w: seq<real>, alpha: real, maxIter: int, tol: real,
               x: seq<real>, iter: int, err: real): Result<Solution>
    requires |g| > 0 && |w| == |g| && |x| == |g|
    decreases maxIter - iter
  {
    if iter < maxIter && err > (|g| as real) * tol then
      match NextScores(g, w, alpha, x)
      case Err(e) => Err(e)
      case Ok(next) => Run(g, w, alpha, maxIter, tol, next, iter + 1, L1Error(next, x))
    else
      Ok(Solution(x, iter, err))
  }

  /** One unfolding of `Run` when the loop condition holds. */
  lemma RunPass(g: Graph, w: seq<real>, alpha: real, maxIter: int, tol: real,
                x: seq<real>, iter: int, err: real)
    requires |g| > 0 && |w| == |g| && |x| == |g|
    requires iter < maxIter && err > (|g| as real) * tol
    ensures NextScores(g, w, alpha, x).Err? ==>
              Run(g, w, alpha, maxIter, tol, x, iter, err) == Err(ZeroRawSum)
    ensures NextScores(g, w, alpha, x).Ok? ==>
              var next := NextScores(g, w, alpha, x).value;
              Run(g, w, alpha, maxIter, tol, x, iter, err)
                == Run(g, w, alpha, maxIter, tol, next, iter + 1, L1Error(next, x))
  {
  }

  /** `Run` stops as soon as the loop condition fails. */
  lemma RunStop(g: Graph, w: seq<real>, alpha: real, maxIter: int, tol: real,
                x: seq<real>, iter: int, err: real)
    requires |g| > 0 && |w| == |g| && |x| == |g|
    requires !(iter < maxIter && err > (|g| as real) * tol)
    ensures Run(g, w, alpha, maxIter, tol, x, iter, err) == Ok(Solution(x, iter, err))
  {
  }

  /** The whole solve: no nodes is a division by zero when the initial vector
      is built; otherwise the loop starts at pass 0 from the uniform vector with
      error `1.0e6`. */
  function Solve(g: Graph, w: seq<real>, alpha: real, maxIter: int, tol: real): Result<Solution>
    requires |w| == |g|
  {
    if |g| == 0 then Err(EmptyGraph)
    else Run(g, w, alpha, maxIter, tol, Uniform(|g|), 0, 1000000.0)
  }

  /** The nested loops of one pass, on a fresh vector: each node in turn pushes
      its damped score to its successors, then takes its dangling share, is
      multiplied by its weight, and gets its teleport term. */
  method Accumulate(g: Graph, w: seq<real>, alpha: real, xlast: array<real>) returns (x: array<real>)
    requires IsGraph(g) && |g| > 0 && |w| == |g| && xlast.Length == |g|
    ensures fresh(x) && x.Length == |g|
    ensures x[..] == RawScores(g, w, alpha, xlast[..])
  {
    var count := |g|;
    var xl := xlast[..];
    var p := 1.0 / (count as real);
    x := new real[count](_ => 0.0);
    var danglesum := DangleSum(g, alpha, xl);
    ghost var q := Portions(g, alpha, xl);
    NoVisits(g, w, alpha, p, q, danglesum, x[..]);
    for n := 0 to count
      invariant x[..] == ScoresAfterVisits(g, w, alpha, p, q, danglesum, n)
    {
      Visit(g, w, alpha, xl, danglesum, p, x, n);
    }
  }

  /** The visit of node `n`: its pushes, then its dangling share, its weight
      and its teleport term. */
  method Visit(g: Graph, w: seq<real>, alpha: real, xl: seq<real>, danglesum: real, p: real,
               x: array<real>, n: nat)
    requires IsGraph(g) && |g| > 0 && |w| == |g| && |xl| == |g| && n < |g| && x.Length == |g|
    requires x[..] == ScoresAfterVisits(g, w, alpha, p, Portions(g, alpha, xl), danglesum, n)
    modifies x
    ensures x[..] == ScoresAfterVisits(g, w, alpha, p, Portions(g, alpha, xl), danglesum, n + 1)
  {
    ghost var before := x[..];
    PushFrom(g, alpha, xl, x, n);
    ghost var pushed := x[..];
    var withDangling := x[n] + danglesum * p;
    var weighted := withDangling * w[n];
    x[n] := weighted + (1.0 - alpha) * p;
    VisitStep(g, w, alpha, Portions(g, alpha, xl), n, before, pushed, danglesum, p, withDangling, weighted, x[n]);
  }

  /** Node `n` adds its portion to each of its successors in turn: every
      node gains exactly what `n` pushes into it. */
  method PushFrom(g: Graph, alpha: real, xl: seq<real>, x: array<real>, n: nat)
    requires IsGraph(g) && |xl| == |g| && n < |g| && x.Length == |g|
    modifies x
    ensures x[..] == AddShares(g, Portions(g, alpha, xl), n, old(x[..]))
  {
    ghost var q := Portions(g, alpha, xl);
    var degree := |g[n]|;
    for j := 0 to degree
      invariant forall m :: 0 <= m < |g| ==>
        x[m] == old(x[m]) + (if m in g[n][..j] then Share(g, q, n, m) else 0.0)
    {
      var nbr := g[n][j];
      PushStep(g, alpha, xl, n, j);
      ghost var prev := x[..];
      x[nbr] := x[nbr] + alpha * xl[n] * 1.0 / (degree as real);
      assert x[nbr] == prev[nbr] + Share(g, q, n, nbr);
      forall m | 0 <= m < |g|
        ensures x[m] == old(x[m]) + (if m in g[n][..j + 1] then Share(g, q, n, m) else 0.0)
      {
        if m != nbr {
          assert x[m] == prev[m];
        }
      }
    }
    assert g[n][..degree] == g[n];
    forall m | 0 <= m < |g|
      ensures x[m] == old(x[m]) + Share(g, q, n, m)
    {
      if m !in g[n] {
        assert Share(g, q, n, m) == 0.0;
      }
    }
  }

  /** Before any visit, nothing has been pushed: the fresh all-zero vector. */
  lemma NoVisits(g: Graph, w: seq<real>, alpha: real, p: real, q: seq<real>, ds: real, v: seq<real>)
    requires |g| > 0 && |w| == |g| && |q| == |g| && |v| == |g|
    requires forall m :: 0 <= m < |v| ==> v[m] == 0.0
    ensures v == ScoresAfterVisits(g, w, alpha, p, q, ds, 0)
  {
  }

  /** Pushing to the `j`-th successor of `k`: it is not among the earlier
      ones, and it receives `Share(k, nbr)`. */
  lemma PushStep(g: Graph, alpha: real, xlast: seq<real>, k: nat, j: nat)
    requires IsGraph(g) && |xlast| == |g| && k < |g| && j < |g[k]|
    ensures g[k][..j + 1] == g[k][..j] + [g[k][j]]
    ensures g[k][j] !in g[k][..j] && g[k][j] < |g|
    ensures Share(g, Portions(g, alpha, xlast), k, g[k][j]) == alpha * xlast[k] * 1.0 / (|g[k]| as real)
    ensures forall m :: m != g[k][j] ==> (m in g[k][..j + 1] <==> m in g[k][..j])
  {
    assert g[k][..j + 1] == g[k][..j] + [g[k][j]];
  }

  /** One visit of node `k`, given the vector after `k` has pushed its mass:
      every other node keeps its value, and `k` itself gets its pushed-into
      value plus its dangling share, times its weight, plus its teleport
      term. The visit then agrees with `ScoresAfterVisits(k + 1)`. */
  lemma VisitStep(g: Graph, w: seq<real>, alpha: real, q: seq<real>, k: nat, before: seq<real>,
                  pushed: seq<real>, ds: real, p: real, withDangling: real, weighted: real, v: real)
    requires |g| > 0 && |w| == |g| && |q| == |g| && k < |g|
    requires before == ScoresAfterVisits(g, w, alpha, p, q, ds, k)
    requires pushed == AddShares(g, q, k, before)
    requires withDangling == pushed[k] + ds * p && weighted == withDangling * w[k]
    requires v == weighted + (1.0 - alpha) * p
    ensures pushed[k := v] == ScoresAfterVisits(g, w, alpha, p, q, ds, k + 1)
  {
    var after := ScoresAfterVisits(g, w, alpha, p, q, ds, k + 1);
    VisitSelf(g, w, alpha, q, k, pushed[k], ds, p, withDangling, weighted, v);
    forall m | 0 <= m < |g| && m != k
      ensures pushed[m] == after[m]
    {
      VisitOther(g, w, alpha, p, q, ds, k, m);
    }
  }

  lemma VisitOther(g: Graph, w: seq<real>, alpha: real, p: real, q: seq<real>, ds: real, k: nat, m: nat)
    requires |g| > 0 && |w| == |g| && |q| == |g| && k < |g| && m < |g| && m != k
    ensures ScoreAfterVisits(g, w, alpha, p, q, ds, k + 1, m)
              == ScoreAfterVisits(g, w, alpha, p, q, ds, k, m) + Share(g, q, k, m)
  {
  }

  lemma VisitSelf(g: Graph, w: seq<real>, alpha: real, q: seq<real>, k: nat,
                  y: real, ds: real, p: real, withDangling: real, weighted: real, v: real)
    requires |g| > 0 && |w| == |g| && |q| == |g| && k < |g|
    requires y == ScoreAfterVisits(g, w, alpha, p, q, ds, k, k) + Share(g, q, k, k)
    requires withDangling == y + ds * p && weighted == withDangling * w[k]
    requires v == weighted + (1.0 - alpha) * p
    ensures v == ScoreAfterVisits(g, w, alpha, p, q, ds, k + 1, k)
  {
    assert Inflow(g, q, 0, k + 1, k) == y;
    assert Inflow(g, q, k + 1, k + 1, k) == 0.0;
    WeightedTerm(w[k], y, ds * p, withDangling, weighted);
  }

  /** `(y + d) * w == w * (y + d)`, apart from everything else. */
  lemma WeightedTerm(wk: real, y: real, d: real, withDangling: real, weighted: real)
    requires withDangling == y + d && weighted == withDangling * wk
    ensures weighted == wk * (y + d)
  {
  }

  /** One pass from the previous vector `xlast` into a fresh array: the
      nested loops, then normalisation to sum 1. */
  method PowerStep(g: Graph, w: seq<real>, alpha: real, xlast: array<real>) returns (r: Result<array<real>>)
    requires IsGraph(g) && |g| > 0 && |w| == |g| && xlast.Length == |g|
    ensures r.Ok? <==> NextScores(g, w, alpha, xlast[..]).Ok?
    ensures r.Ok? ==> fresh(r.value) && r.value[..] == NextScores(g, w, alpha, xlast[..]).value
    ensures r.Err? ==> r.error == ZeroRawSum
  {
    var x := Accumulate(g, w, alpha, xlast);
    match Normalize(x[..], 1.0)
    case Err(e) =>
      r := Err(e);
    case Ok(v) =>
      var normalized := new real[|v|](i requires 0 <= i < |v| => v[i]);
      r := Ok(normalized);
  }

  /** `AgeBasedPR`: build the uniform vector and run passes until `max_iter`
      passes are made or the L1 error is at most `N * tol`. */
  method AgeBasedPageRank(g: Graph, w: seq<real>, alpha: real, maxIter: int, tol: real)
    returns (r: Result<Solution>)
    requires IsGraph(g) && |w| == |g|
    ensures r == Solve(g, w, alpha, maxIter, tol)
  {
    var count := |g|;
    if count == 0 {
      return Err(EmptyGraph);
    }
    var x := new real[count](_ => 1.0 / (count as real));
    assert x[..] == Uniform(count);
    var thisIter := 0;
    var err := 1000000.0;
    while thisIter < maxIter && err > (|g| as real) * tol
      invariant x.Length == count
      invariant Run(g, w, alpha, maxIter, tol, x[..], thisIter, err) == Solve(g, w, alpha, maxIter, tol)
      decreases maxIter - thisIter
    {
      var xlast := x;
      var step := PowerStep(g, w, alpha, xlast);
      RunPass(g, w, alpha, maxIter, tol, xlast[..], thisIter, err);
      match step {
        case Err(e) =>
          return Err(e);
        case Ok(next) =>
          x := next;
          err := L1Error(x[..], xlast[..]);
          thisIter := thisIter + 1;
      }
    }
    RunStop(g, w, alpha, maxIter, tol, x[..], thisIter, err);
    r := Ok(Solution(x[..], thisIter, err));
  }
}
