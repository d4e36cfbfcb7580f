/** `normalize(d, target)`: rescale a score vector so that it sums to `target`.
    A dictionary keyed by the graph's nodes is a sequence indexed by node
    position, so "the same keys" is "the same length". */
module Normalization {
  import opened Sums
  import opened Results

  /** Multiply every entry by the one factor `target / raw`, where `raw` is
      the sum of the entries; dividing by a zero `raw` is an error. The keys
      are kept and the result sums to `target`. */
  function Normalize(d: seq<real>, target: real): (r: Result<seq<real>>)
    ensures r.Ok? <==> Sum(d) != 0.0
    ensures r.Err? ==> r.error == ZeroRawSum
    ensures r.Ok? ==> |r.value| == |d|
    ensures r.Ok? ==> forall i :: 0 <= i < |d| ==> r.value[i] == d[i] * (target / Sum(d))
    ensures r.Ok? ==> Sum(r.value) == target
  {
    var raw := Sum(d);
    if raw == 0.0 then Err(ZeroRawSum)
    else
      var factor := target / raw;
      var scaled := seq(|d|, i requires 0 <= i < |d| => d[i] * factor);
      SumScale(d, factor, scaled);
      Ok(scaled)
  }

  /** Non-negative entries with a positive sum stay non-negative under a
      non-negative target, and positive ones stay positive under a positive one. */
  lemma NormalizeKeepsSign(d: seq<real>, target: real)
    requires Sum(d) > 0.0
    ensures target >= 0.0 && (forall i :: 0 <= i < |d| ==> d[i] >= 0.0) ==>
              forall i :: 0 <= i < |d| ==> Normalize(d, target).value[i] >= 0.0
    ensures target > 0.0 && (forall i :: 0 <= i < |d| ==> d[i] > 0.0) ==>
              forall i :: 0 <= i < |d| ==> Normalize(d, target).value[i] > 0.0
  {
    var r := Normalize(d, target).value;
  }

  /** One common factor keeps every ratio: `r[i] : r[j] == d[i] : d[j]`,
      written without division as `r[i] * d[j] == r[j] * d[i]`. */
  lemma NormalizePreservesRatios(d: seq<real>, target: real, r: seq<real>)
    requires Normalize(d, target) == Ok(r)
    ensures forall i, j :: 0 <= i < |d| && 0 <= j < |d| ==> r[i] * d[j] == r[j] * d[i]
  {
    EntriesTimesFactor(d, r, target / Sum(d));
  }

  /** Entries scaled by one factor `f` keep their ratios. */
  lemma EntriesTimesFactor(d: seq<real>, r: seq<real>, f: real)
    requires |r| == |d|
    requires forall i :: 0 <= i < |d| ==> r[i] == d[i] * f
    ensures forall i, j :: 0 <= i < |d| && 0 <= j < |d| ==> r[i] * d[j] == r[j] * d[i]
  {
    forall i, j | 0 <= i < |d| && 0 <= j < |d|
      ensures r[i] * d[j] == r[j] * d[i]
    {
      CommonFactorRatio(d[i], d[j], f, r[i], r[j]);
    }
  }

  /** `(a * f) * b == (b * f) * a`, apart from everything else. */
  lemma CommonFactorRatio(a: real, b: real, f: real, ra: real, rb: real)
    requires ra == a * f && rb == b * f
    ensures ra * b == rb * a
  {
  }
}
