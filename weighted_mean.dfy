/** The weighted-mean defuzzification of the float tipping program: the sum
    of weight times abscissa over the sum of the weights. */
module WeightedMean {
  import opened Results
  import opened RealFacts
  import opened Curves

  /** The sum of the first k weights: `aggregated_sum` after k iterations. */
  function WeightSum(w: seq<real>, k: nat): real
    requires k <= |w|
  {
    if k == 0 then 0.0 else WeightSum(w, k - 1) + w[k - 1]
  }

  /** The sum of the first k weights times their abscissae:
      `integration_sum` after k iterations. */
  function WeightedSum(w: seq<real>, y: seq<real>, k: nat): real
    requires k <= |w| && k <= |y|
  {
    if k == 0 then 0.0 else WeightedSum(w, y, k - 1) + w[k - 1] * y[k - 1]
  }

  /** The sum of the first k weights, each scaled by `p`. */
  function ScaledWeightSum(w: seq<real>, k: nat, p: real): real
    requires k <= |w|
  {
    if k == 0 then 0.0 else ScaledWeightSum(w, k - 1, p) + p * w[k - 1]
  }

  /** The weighted sum of the first k deviations of the abscissae from `p`. */
  function Deviation(w: seq<real>, y: seq<real>, k: nat, p: real): real
    requires k <= |w| && k <= |y|
  {
    if k == 0 then 0.0 else Deviation(w, y, k - 1, p) + w[k - 1] * (y[k - 1] - p)
  }

  /** One more sample adds its weight to the weight sum and its weighted
      abscissa to the weighted sum. */
  lemma {:induction false} SumStep(w: seq<real>, y: seq<real>, k: nat)
    requires k < |w| && k < |y|
    ensures WeightSum(w, k + 1) == WeightSum(w, k) + w[k]
    ensures WeightedSum(w, y, k + 1) == WeightedSum(w, y, k) + w[k] * y[k]
  {
  }

  lemma TermSplit(wi: real, yi: real, p: real)
    ensures wi * yi == p * wi + wi * (yi - p)
  {
  }

  /** The weighted sum is `p` times the weight sum plus the weighted
      deviation from `p`. */
  lemma {:induction false} WeightedSplit(w: seq<real>, y: seq<real>, k: nat, p: real)
    requires k <= |w| && k <= |y|
    ensures WeightedSum(w, y, k) == ScaledWeightSum(w, k, p) + Deviation(w, y, k, p)
  {
    if k > 0 {
      WeightedSplit(w, y, k - 1, p);
      TermSplit(w[k - 1], y[k - 1], p);
    }
  }

  /** Scaling every weight scales the weight sum. */
  lemma {:induction false} ScaledWeightSumIsProduct(w: seq<real>, k: nat, p: real)
    requires k <= |w|
    ensures ScaledWeightSum(w, k, p) == p * WeightSum(w, k)
  {
    if k > 0 {
      ScaledWeightSumIsProduct(w, k - 1, p);
      Distribute(p, WeightSum(w, k - 1), w[k - 1], WeightSum(w, k));
    }
  }

  /** With non-negative weights, the weighted deviation from a point at or
      below every abscissa is non-negative. */
  lemma {:induction false} DeviationBelow(w: seq<real>, y: seq<real>, k: nat, p: real)
    requires k <= |w| && k <= |y|
    requires NonNegative(w, k)
    requires forall i :: 0 <= i < k ==> p <= y[i]
    ensures Deviation(w, y, k, p) >= 0.0
  {
    if k > 0 {
      DeviationBelow(w, y, k - 1, p);
      ProductSign(w[k - 1], y[k - 1] - p);
    }
  }

  /** ... and from a point at or above every abscissa non-positive. */
  lemma {:induction false} DeviationAbove(w: seq<real>, y: seq<real>, k: nat, p: real)
    requires k <= |w| && k <= |y|
    requires NonNegative(w, k)
    requires forall i :: 0 <= i < k ==> y[i] <= p
    ensures Deviation(w, y, k, p) <= 0.0
  {
    if k > 0 {
      DeviationAbove(w, y, k - 1, p);
      ProductSign(w[k - 1], p - y[k - 1]);
    }
  }

  /** Non-negative weights have a non-negative sum, which is zero exactly
      when every weight is. */
  lemma {:induction false} WeightSumFacts(w: seq<real>, k: nat)
    requires k <= |w|
    requires NonNegative(w, k)
    ensures WeightSum(w, k) >= 0.0
    ensures WeightSum(w, k) == 0.0 <==> forall i :: 0 <= i < k ==> w[i] == 0.0
  {
    if k > 0 {
      WeightSumFacts(w, k - 1);
    }
  }

  /** With non-negative weights, the weighted sum is at least the weight
      sum times any pivot at or below every abscissa ... */
  lemma {:induction false} WeightedAbovePivot(w: seq<real>, y: seq<real>, n: nat, pivot: real)
    requires n <= |w| && n <= |y|
    requires NonNegative(w, n)
    requires forall i :: 0 <= i < n ==> pivot <= y[i]
    ensures pivot * WeightSum(w, n) <= WeightedSum(w, y, n)
  {
    WeightedSplit(w, y, n, pivot);
    ScaledWeightSumIsProduct(w, n, pivot);
    DeviationBelow(w, y, n, pivot);
  }

  /** ... and at most the weight sum times any pivot at or above every
      abscissa. */
  lemma {:induction false} WeightedBelowPivot(w: seq<real>, y: seq<real>, n: nat, pivot: real)
    requires n <= |w| && n <= |y|
    requires NonNegative(w, n)
    requires forall i :: 0 <= i < n ==> y[i] <= pivot
    ensures WeightedSum(w, y, n) <= pivot * WeightSum(w, n)
  {
    WeightedSplit(w, y, n, pivot);
    ScaledWeightSumIsProduct(w, n, pivot);
    DeviationAbove(w, y, n, pivot);
  }

  /** With non-negative weights of positive sum, the weighted mean is at
      least any pivot at or below every abscissa ... */
  lemma {:induction false} MeanAbovePivot(w: seq<real>, y: seq<real>, n: nat, pivot: real)
    requires n <= |w| && n <= |y|
    requires NonNegative(w, n) && WeightSum(w, n) > 0.0
    requires forall i :: 0 <= i < n ==> pivot <= y[i]
    ensures pivot <= WeightedSum(w, y, n) / WeightSum(w, n)
  {
    WeightedAbovePivot(w, y, n, pivot);
    QuotientAtLeast(WeightedSum(w, y, n), WeightSum(w, n), pivot);
  }

  /** ... and at most any pivot at or above every abscissa. */
  lemma {:induction false} MeanBelowPivot(w: seq<real>, y: seq<real>, n: nat, pivot: real)
    requires n <= |w| && n <= |y|
    requires NonNegative(w, n) && WeightSum(w, n) > 0.0
    requires forall i :: 0 <= i < n ==> y[i] <= pivot
    ensures WeightedSum(w, y, n) / WeightSum(w, n) <= pivot
  {
    WeightedBelowPivot(w, y, n, pivot);
    QuotientAtMost(WeightedSum(w, y, n), WeightSum(w, n), pivot);
  }

  /** Over a non-decreasing abscissa with non-negative weights of positive
      sum, the weighted mean lies between the first and the last abscissa. */
  lemma {:induction false} MeanBounds(w: seq<real>, y: seq<real>, n: nat)
    requires 0 < n <= |w| && n <= |y|
    requires NonNegative(w, n) && NonDecreasing(y, n)
    requires WeightSum(w, n) > 0.0
    ensures y[0] <= WeightedSum(w, y, n) / WeightSum(w, n) <= y[n - 1]
  {
    MeanAbovePivot(w, y, n, y[0]);
    MeanBelowPivot(w, y, n, y[n - 1]);
  }

  /** What the defuzzification of the first n samples yields: the weighted
      mean, or an error when the weights sum to zero. */
  function MeanOf(w: seq<real>, y: seq<real>, n: nat): Result<real>
    requires n <= |w| && n <= |y|
  {
    if WeightSum(w, n) == 0.0 then Err(ZeroDenominator) else Ok(WeightedSum(w, y, n) / WeightSum(w, n))
  }

  /** With non-negative weights the mean is undefined exactly when every
      weight is zero; over a non-decreasing abscissa it lies between the
      first and the last abscissa. */
  lemma {:induction false} MeanOfFacts(w: seq<real>, y: seq<real>, n: nat)
    requires n <= |w| && n <= |y|
    requires NonNegative(w, n)
    ensures MeanOf(w, y, n).Err? <==> forall i :: 0 <= i < n ==> w[i] == 0.0
    ensures 0 < n && NonDecreasing(y, n) && MeanOf(w, y, n).Ok? ==>
              y[0] <= MeanOf(w, y, n).value <= y[n - 1]
  {
    WeightSumFacts(w, n);
    if 0 < n && NonDecreasing(y, n) && WeightSum(w, n) != 0.0 {
      MeanBounds(w, y, n);
    }
  }

  /** Stage 5, defuzzification: both accumulators start at zero (the source
      leaves them uninitialised), the loop adds every sample's weight and
      weighted abscissa, and a zero weight sum is an error instead of a
      division by zero.  With non-negative weights the error happens exactly
      for an all-zero curve, and over a non-decreasing abscissa the result
      lies between the first and the last abscissa. */
  method Defuzzify(aggregated: array<real>, Y: array<real>) returns (r: Result<real>)
    requires aggregated.Length == Y.Length
    ensures r == MeanOf(aggregated[..], Y[..], Y.Length)
    ensures NonNegative(aggregated[..], Y.Length) ==>
              (r.Err? <==> forall i :: 0 <= i < Y.Length ==> aggregated[i] == 0.0)
    ensures NonNegative(aggregated[..], Y.Length) && NonDecreasing(Y[..], Y.Length) && r.Ok? ==>
              Y[0] <= r.value <= Y[Y.Length - 1]
  {
    ghost var w, ys := aggregated[..], Y[..];
    var integrationSum := 0.0;
    var aggregatedSum := 0.0;
    var i := 0;
    while i < Y.Length
      invariant 0 <= i <= Y.Length
      invariant integrationSum == WeightedSum(w, ys, i)
      invariant aggregatedSum == WeightSum(w, i)
    {
      SumStep(w, ys, i);
      integrationSum := integrationSum + aggregated[i] * Y[i];
      aggregatedSum := aggregatedSum + aggregated[i];
      i := i + 1;
    }
    if NonNegative(w, Y.Length) {
      MeanOfFacts(w, ys, Y.Length);
    }
    if aggregatedSum == 0.0 {
      r := Err(ZeroDenominator);
    } else {
      r := Ok(integrationSum / aggregatedSum);
    }
  }
}
