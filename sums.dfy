/** Finite sums of real numbers, as Python's built-in `sum` computes them over
    the values of a score dictionary (with exact arithmetic, the order of the
    terms does not matter). */
module Sums {

  /** The sum of all entries of `s`, adding the last entry last. */
  function Sum(s: seq<real>): real
    decreases |s|
  {
    if |s| == 0 then 0.0 else Sum(s[..|s| - 1]) + s[|s| - 1]
  }

  /** The sum of the entries of `s` at the positions listed in `idx`, adding
      the last listed position last. */
  function SumAt(s: seq<real>, idx: seq<nat>): real
    requires forall i :: 0 <= i < |idx| ==> idx[i] < |s|
    decreases |idx|
  {
    if |idx| == 0 then 0.0 else SumAt(s, idx[..|idx| - 1]) + s[idx[|idx| - 1]]
  }

  /** Summing is monotone: pointwise `a <= b` gives `Sum(a) <= Sum(b)`. */
  lemma {:induction false} SumMonotone(a: seq<real>, b: seq<real>)
    requires |a| == |b|
    requires forall i :: 0 <= i < |a| ==> a[i] <= b[i]
    ensures Sum(a) <= Sum(b)
  {
    if |a| > 0 {
      SumMonotone(a[..|a| - 1], b[..|b| - 1]);
    }
  }

  /** Non-negative entries have a non-negative sum. */
  lemma {:induction false} SumNonNegative(s: seq<real>)
    requires forall i :: 0 <= i < |s| ==> s[i] >= 0.0
    ensures Sum(s) >= 0.0
  {
    if |s| > 0 {
      SumNonNegative(s[..|s| - 1]);
    }
  }

  /** A sequence of one repeated value sums to its length times that value. */
  lemma {:induction false} SumConstant(s: seq<real>, c: real)
    requires forall i :: 0 <= i < |s| ==> s[i] == c
    ensures Sum(s) == (|s| as real) * c
  {
    if |s| > 0 {
      SumConstant(s[..|s| - 1], c);
    }
  }

  /** Summing is additive: pointwise `c == a + b` gives `Sum(c) == Sum(a) + Sum(b)`. */
  lemma {:induction false} SumPointwiseAdd(a: seq<real>, b: seq<real>, c: seq<real>)
    requires |a| == |b| == |c|
    requires forall i :: 0 <= i < |c| ==> c[i] == a[i] + b[i]
    ensures Sum(c) == Sum(a) + Sum(b)
  {
    if |c| > 0 {
      var n := |c| - 1;
      SumPointwiseAdd(a[..n], b[..n], c[..n]);
    }
  }

  /** Summing is homogeneous: pointwise `r == a * k` gives `Sum(r) == Sum(a) * k`. */
  lemma {:induction false} SumScale(a: seq<real>, k: real, r: seq<real>)
    requires |a| == |r|
    requires forall i :: 0 <= i < |r| ==> r[i] == a[i] * k
    ensures Sum(r) == Sum(a) * k
  {
    if |r| > 0 {
      var n := |r| - 1;
      SumScale(a[..n], k, r[..n]);
    }
  }

  /** Every entry of `s` multiplied by `k`. */
  function Scaled(s: seq<real>, k: real): (r: seq<real>)
    ensures |r| == |s| && forall i :: 0 <= i < |s| ==> r[i] == s[i] * k
  {
    seq(|s|, i requires 0 <= i < |s| => s[i] * k)
  }

  /** Scaling commutes with summing over a list of positions. */
  lemma {:induction false} SumAtScaled(s: seq<real>, idx: seq<nat>, k: real)
    requires forall i :: 0 <= i < |idx| ==> idx[i] < |s|
    ensures k * SumAt(s, idx) == SumAt(Scaled(s, k), idx)
    decreases |idx|
  {
    if |idx| > 0 {
      SumAtScaled(s, idx[..|idx| - 1], k);
    }
  }

  /** Scaling commutes with pointwise addition under a sum. */
  lemma SumScaledAdd(a: seq<real>, b: seq<real>, c: seq<real>, k: real)
    requires |a| == |b| == |c|
    requires forall i :: 0 <= i < |c| ==> c[i] == a[i] + b[i]
    ensures Sum(Scaled(c, k)) == Sum(Scaled(a, k)) + Sum(Scaled(b, k))
  {
    SumPointwiseAdd(Scaled(a, k), Scaled(b, k), Scaled(c, k));
  }

  /** Two sequences that differ only at position `e`, where `b` exceeds `a`
      by `c`, have sums that differ by `c`. */
  lemma {:induction false} SumBump(a: seq<real>, b: seq<real>, e: nat, c: real)
    requires |a| == |b| && e < |a|
    requires forall i :: 0 <= i < |a| && i != e ==> b[i] == a[i]
    requires b[e] == a[e] + c
    ensures Sum(b) == Sum(a) + c
  {
    var n := |a| - 1;
    if e == n {
      assert a[..n] == b[..n];
    } else {
      SumBump(a[..n], b[..n], e, c);
    }
  }

  /** `s` holds the value `c` at the distinct, in-range positions `l`, and
      zero elsewhere. */
  predicate Indicator(l: seq<nat>, c: real, s: seq<real>)
  {
    && (forall i :: 0 <= i < |l| ==> l[i] < |s|)
    && (forall i, j :: 0 <= i < j < |l| ==> l[i] != l[j])
    && (forall n :: 0 <= n < |s| ==> s[n] == if n in l then c else 0.0)
  }

  /** An indicator of the positions `l` sums to `|l| * c`. */
  lemma {:induction false} SumIndicator(l: seq<nat>, c: real, s: seq<real>)
    requires Indicator(l, c, s)
    ensures Sum(s) == (|l| as real) * c
    decreases |l|
  {
    if |l| == 0 {
      SumZero(s);
    } else {
      var l', s' := DropLastIndicator(l, c, s);
      SumIndicator(l', c, s');
      IndicatorStep(l', l, c, Sum(s'), Sum(s));
    }
  }

  /** All-zero sequences sum to zero. */
  lemma {:induction false} SumZero(s: seq<real>)
    requires forall i :: 0 <= i < |s| ==> s[i] == 0.0
    ensures Sum(s) == 0.0
  {
    if |s| > 0 {
      SumZero(s[..|s| - 1]);
    }
  }

  /** Removing the last position of `l` from an indicator sequence lowers
      its sum by `c`. */
  lemma DropLastIndicator(l: seq<nat>, c: real, s: seq<real>) returns (l': seq<nat>, s': seq<real>)
    requires |l| > 0 && Indicator(l, c, s)
    ensures |l'| + 1 == |l| && Indicator(l', c, s')
    ensures Sum(s) == Sum(s') + c
  {
    var k := |l| - 1;
    var e := l[k];
    l' := l[..k];
    assert l == l' + [e];
    s' := seq(|s|, n requires 0 <= n < |s| => if n in l' then c else 0.0);
    assert e !in l' by {
      forall i | 0 <= i < k ensures l'[i] != e {
        assert l[i] != l[k];
      }
    }
    forall n | 0 <= n < |s| && n != e ensures s[n] == s'[n] {
      assert (n in l) == (n in l');
    }
    assert s[e] == s'[e] + c by {
      assert e in l;
    }
    SumBump(s', s, e, c);
  }

  /** `k * c + c == (k + 1) * c` for the lengths of `l'` and `l`, kept apart
      so that the arithmetic of the induction step is solved without the
      surrounding sequence facts. */
  lemma IndicatorStep(l': seq<nat>, l: seq<nat>, c: real, before: real, after: real)
    requires |l| == |l'| + 1
    requires before == (|l'| as real) * c && after == before + c
    ensures after == (|l| as real) * c
  {
  }

  /** The sum of column `n` over the rows of a matrix. */
  function ColumnSum(rows: seq<seq<real>>, n: nat): real
    requires forall m :: 0 <= m < |rows| ==> n < |rows[m]|
    decreases |rows|
  {
    if |rows| == 0 then 0.0 else ColumnSum(rows[..|rows| - 1], n) + rows[|rows| - 1][n]
  }

  /** The column sums of a matrix whose rows all have length `width`. */
  function ColumnSums(rows: seq<seq<real>>, width: nat): (r: seq<real>)
    requires forall m :: 0 <= m < |rows| ==> |rows[m]| == width
    ensures |r| == width
  {
    seq(width, n requires 0 <= n < width => ColumnSum(rows, n))
  }

  /** The row sums of a matrix. */
  function RowSums(rows: seq<seq<real>>): (r: seq<real>)
    ensures |r| == |rows|
  {
    seq(|rows|, m requires 0 <= m < |rows| => Sum(rows[m]))
  }

  /** Summing a matrix column by column or row by row gives the same total. */
  lemma {:induction false} SumExchange(rows: seq<seq<real>>, width: nat)
    requires forall m :: 0 <= m < |rows| ==> |rows[m]| == width
    ensures Sum(ColumnSums(rows, width)) == Sum(RowSums(rows))
    decreases |rows|
  {
    if |rows| == 0 {
      SumZero(ColumnSums(rows, width));
    } else {
      var k := |rows| - 1;
      SumExchange(rows[..k], width);
      SumPointwiseAdd(ColumnSums(rows[..k], width), rows[k], ColumnSums(rows, width));
      assert RowSums(rows)[..k] == RowSums(rows[..k]);
    }
  }
}
