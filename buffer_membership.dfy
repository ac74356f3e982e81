/** The double-precision helpers: a trapezoid evaluator that fills an output
    buffer sample by sample with chained tests (first match wins), the
    triangle as a degenerate trapezoid, and the trapezoid-rule centroid of a
    sampled curve. */
module BufferMembership {
  import opened Results
  import opened RealFacts
  import opened Curves

  /** The value `own_trap` stores for one sample `x`.  The tests are tried in
      the order [b, c], (a, b), (c, d), otherwise; every real `x` gets a value
      and no branch divides by zero. */
  function TrapSample(x: real, a: real, b: real, c: real, d: real): (r: real)
    ensures 0.0 <= r <= 1.0
    ensures r == 1.0 <==> b <= x <= c
    ensures r == 0.0 <==> !(b <= x <= c) && !(a < x < b) && !(c < x < d)
  {
    InnerRatio(x - a, b - a);
    InnerRatio(d - x, d - c);
    if b <= x <= c then 1.0
    else if a < x < b then (x - a) / (b - a)
    else if c < x < d then (d - x) / (d - c)
    else 0.0
  }

  /** The value `own_tri` stores for one sample: the trapezoid with both
      plateau points at `b`. */
  function TriSample(x: real, a: real, b: real, c: real): (r: real)
    ensures 0.0 <= r <= 1.0
    ensures r == 1.0 <==> x == b
  {
    TrapSample(x, a, b, b, c)
  }

  /** A triangle vanishes exactly outside its open support, except at the
      peak itself. */
  lemma TriSampleZero(x: real, a: real, b: real, c: real)
    requires a <= b <= c
    ensures TriSample(x, a, b, c) == 0.0 <==> x != b && (x <= a || c <= x)
  {
  }

  /** `own_trap`: writes the sample of every `X[i]`, i < length, into `mf[i]`
      and nothing else.  `X` is only read; if the caller passes the same
      buffer for both, each element is read before it is overwritten. */
  method OwnTrap(X: array<real>, length: int, a: real, b: real, c: real, d: real, mf: array<real>)
    requires length <= X.Length && length <= mf.Length
    modifies mf
    ensures forall i :: 0 <= i < length ==> mf[i] == TrapSample(old(X[i]), a, b, c, d)
    ensures forall i :: 0 <= i < mf.Length && !(0 <= i < length) ==> mf[i] == old(mf[i])
    ensures X != mf ==> X[..] == old(X[..])
  {
    var i := 0;
    while i < length
      invariant 0 <= i <= if length < 0 then 0 else length
      invariant forall j :: 0 <= j < i ==> mf[j] == TrapSample(old(X[j]), a, b, c, d)
      invariant forall j :: i <= j < mf.Length ==> mf[j] == old(mf[j])
      invariant forall j :: i <= j < X.Length ==> X[j] == old(X[j])
    {
      mf[i] := TrapSample(X[i], a, b, c, d);
      i := i + 1;
    }
  }

  /** `own_tri`: the buffer version of the triangle. */
  method OwnTri(X: array<real>, length: int, a: real, b: real, c: real, mf: array<real>)
    requires length <= X.Length && length <= mf.Length
    modifies mf
    ensures forall i :: 0 <= i < length ==> mf[i] == TriSample(old(X[i]), a, b, c)
    ensures forall i :: 0 <= i < mf.Length && !(0 <= i < length) ==> mf[i] == old(mf[i])
    ensures X != mf ==> X[..] == old(X[..])
  {
    OwnTrap(X, length, a, b, b, c, mf);
  }

  /** Number of loop iterations of `own_centroid` for a given `length`. */
  function Segments(length: int): nat
  {
    if length < 2 then 0 else length - 1
  }

  /** The trapezoid-rule area between abscissae p < q with heights cp, cq:
      the expression `own_centroid` adds to its denominator. */
  function TrapezoidArea(p: real, q: real, cp: real, cq: real): real
  {
    (cp + cq) / 2.0 * (q - p)
  }

  /** The trapezoid-rule first moment of the same trapezoid: the expression
      `own_centroid` adds to its numerator. */
  function TrapezoidMoment(p: real, q: real, cp: real, cq: real): real
  {
    (p * cp + q * cq) / 2.0 * (q - p)
  }

  /** The trapezoid-rule area of segment i, between samples i and i + 1. */
  function SegArea(y: seq<real>, C: seq<real>, i: nat): real
    requires i + 1 < |y| && i + 1 < |C|
  {
    TrapezoidArea(y[i], y[i + 1], C[i], C[i + 1])
  }

  /** The trapezoid-rule first moment of segment i. */
  function SegMoment(y: seq<real>, C: seq<real>, i: nat): real
    requires i + 1 < |y| && i + 1 < |C|
  {
    TrapezoidMoment(y[i], y[i + 1], C[i], C[i + 1])
  }

  /** The area of segment i with both heights scaled by `w`. */
  function SegScaledArea(y: seq<real>, C: seq<real>, i: nat, w: real): real
    requires i + 1 < |y| && i + 1 < |C|
  {
    (w * C[i] + w * C[i + 1]) / 2.0 * (y[i + 1] - y[i])
  }

  /** The first moment of segment i about the abscissa `pivot`. */
  function SegMomentAbout(y: seq<real>, C: seq<real>, i: nat, pivot: real): real
    requires i + 1 < |y| && i + 1 < |C|
  {
    ((y[i] - pivot) * C[i] + (y[i + 1] - pivot) * C[i + 1]) / 2.0 * (y[i + 1] - y[i])
  }

  /** Trapezoid-rule area under the first k segments of the curve (y, C). */
  function Area(y: seq<real>, C: seq<real>, k: nat): real
    requires k == 0 || (k < |y| && k < |C|)
  {
    if k == 0 then 0.0 else Area(y, C, k - 1) + SegArea(y, C, k - 1)
  }

  /** Trapezoid-rule first moment of the first k segments of the curve. */
  function Moment(y: seq<real>, C: seq<real>, k: nat): real
    requires k == 0 || (k < |y| && k < |C|)
  {
    if k == 0 then 0.0 else Moment(y, C, k - 1) + SegMoment(y, C, k - 1)
  }

  /** The area of the first k segments with every height scaled by `w`. */
  function ScaledArea(y: seq<real>, C: seq<real>, k: nat, w: real): real
    requires k == 0 || (k < |y| && k < |C|)
  {
    if k == 0 then 0.0 else ScaledArea(y, C, k - 1, w) + SegScaledArea(y, C, k - 1, w)
  }

  /** The moment of the first k segments about the abscissa `pivot`. */
  function MomentAbout(y: seq<real>, C: seq<real>, k: nat, pivot: real): real
    requires k == 0 || (k < |y| && k < |C|)
  {
    if k == 0 then 0.0 else MomentAbout(y, C, k - 1, pivot) + SegMomentAbout(y, C, k - 1, pivot)
  }

  /** One more segment adds its trapezoid to the area and the moment. */
  lemma {:induction false} AccumulateStep(y: seq<real>, C: seq<real>, i: nat)
    requires i + 1 < |y| && i + 1 < |C|
    ensures Moment(y, C, i + 1) == Moment(y, C, i) + SegMoment(y, C, i)
    ensures Area(y, C, i + 1) == Area(y, C, i) + SegArea(y, C, i)
  {
  }

  /** A segment's moment about the origin is its moment about any pivot
      plus its area with the heights scaled by the pivot. */
  lemma {:induction false} SegMomentSplit(y: seq<real>, C: seq<real>, i: nat, pivot: real)
    requires i + 1 < |y| && i + 1 < |C|
    ensures SegMoment(y, C, i) == SegScaledArea(y, C, i, pivot) + SegMomentAbout(y, C, i, pivot)
  {
  }

  /** Scaling a segment's heights scales its area. */
  lemma {:induction false} SegScale(y: seq<real>, C: seq<real>, i: nat, w: real)
    requires i + 1 < |y| && i + 1 < |C|
    ensures SegScaledArea(y, C, i, w) == w * SegArea(y, C, i)
  {
  }

  /** Scaling every height scales the area. */
  lemma {:induction false} ScaledAreaIsProduct(y: seq<real>, C: seq<real>, k: nat, w: real)
    requires k == 0 || (k < |y| && k < |C|)
    ensures ScaledArea(y, C, k, w) == w * Area(y, C, k)
  {
    if k > 0 {
      ScaledAreaIsProduct(y, C, k - 1, w);
      SegScale(y, C, k - 1, w);
      Distribute(w, Area(y, C, k - 1), SegArea(y, C, k - 1), Area(y, C, k));
    }
  }

  /** The moment about the origin is the moment about any pivot plus the
      area with the heights scaled by the pivot. */
  lemma {:induction false} MomentSplit(y: seq<real>, C: seq<real>, k: nat, pivot: real)
    requires k == 0 || (k < |y| && k < |C|)
    ensures Moment(y, C, k) == ScaledArea(y, C, k, pivot) + MomentAbout(y, C, k, pivot)
  {
    if k > 0 {
      MomentSplit(y, C, k - 1, pivot);
      SegMomentSplit(y, C, k - 1, pivot);
    }
  }

  /** One segment of a rising abscissa with non-negative heights has a
      non-negative moment about a pivot at or left of it. */
  lemma {:induction false} SegMomentAboutLeft(y: seq<real>, C: seq<real>, i: nat, pivot: real)
    requires i + 1 < |y| && i + 1 < |C|
    requires y[i] < y[i + 1] && C[i] >= 0.0 && C[i + 1] >= 0.0 && pivot <= y[i]
    ensures SegMomentAbout(y, C, i, pivot) >= 0.0
  {
    var p, q, cp, cq := y[i], y[i + 1], C[i], C[i + 1];
    ProductSign(p - pivot, cp);
    ProductSign(q - pivot, cq);
    ProductSign(((p - pivot) * cp + (q - pivot) * cq) / 2.0, q - p);
  }

  /** ... and a non-positive moment about a pivot at or right of it. */
  lemma {:induction false} SegMomentAboutRight(y: seq<real>, C: seq<real>, i: nat, pivot: real)
    requires i + 1 < |y| && i + 1 < |C|
    requires y[i] < y[i + 1] && C[i] >= 0.0 && C[i + 1] >= 0.0 && y[i + 1] <= pivot
    ensures SegMomentAbout(y, C, i, pivot) <= 0.0
  {
    var p, q, cp, cq := y[i], y[i + 1], C[i], C[i + 1];
    ProductSign(pivot - p, cp);
    ProductSign(pivot - q, cq);
    ProductSign(((pivot - p) * cp + (pivot - q) * cq) / 2.0, q - p);
  }

  /** Over a strictly increasing abscissa with non-negative heights, the
      moment about a pivot at or left of the first abscissa is non-negative. */
  lemma {:induction false} MomentAboutLeft(y: seq<real>, C: seq<real>, k: nat, pivot: real)
    requires k < |y| && k < |C|
    requires StrictlyIncreasing(y, k + 1) && NonNegative(C, k + 1)
    requires pivot <= y[0]
    ensures MomentAbout(y, C, k, pivot) >= 0.0
  {
    if k > 0 {
      MomentAboutLeft(y, C, k - 1, pivot);
      assert y[0] <= y[k - 1] < y[k];
      SegMomentAboutLeft(y, C, k - 1, pivot);
    }
  }

  /** ... and about a pivot at or right of the last abscissa non-positive. */
  lemma {:induction false} MomentAboutRight(y: seq<real>, C: seq<real>, k: nat, pivot: real)
    requires k < |y| && k < |C|
    requires StrictlyIncreasing(y, k + 1) && NonNegative(C, k + 1)
    requires y[k] <= pivot
    ensures MomentAbout(y, C, k, pivot) <= 0.0
  {
    if k > 0 {
      assert y[k - 1] < y[k];
      MomentAboutRight(y, C, k - 1, pivot);
      SegMomentAboutRight(y, C, k - 1, pivot);
    }
  }

  /** One segment's area is non-negative, and zero only when both of its
      heights are. */
  lemma {:induction false} SegAreaSign(y: seq<real>, C: seq<real>, i: nat)
    requires i + 1 < |y| && i + 1 < |C|
    requires y[i] < y[i + 1] && C[i] >= 0.0 && C[i + 1] >= 0.0
    ensures SegArea(y, C, i) >= 0.0
    ensures SegArea(y, C, i) == 0.0 <==> C[i] == 0.0 && C[i + 1] == 0.0
  {
    ProductSign((C[i] + C[i + 1]) / 2.0, y[i + 1] - y[i]);
  }

  /** Over a strictly increasing abscissa with non-negative heights the
      area is non-negative, and it is zero exactly when every height is. */
  lemma {:induction false} AreaFacts(y: seq<real>, C: seq<real>, k: nat)
    requires k < |y| && k < |C|
    requires StrictlyIncreasing(y, k + 1) && NonNegative(C, k + 1)
    ensures Area(y, C, k) >= 0.0
    ensures 0 < k ==> (Area(y, C, k) == 0.0 <==> forall i :: 0 <= i <= k ==> C[i] == 0.0)
  {
    if k > 0 {
      AreaFacts(y, C, k - 1);
      SegAreaSign(y, C, k - 1);
    }
  }

  /** Over a strictly increasing abscissa with non-negative heights the
      moment is at least the area times any pivot at or left of the first
      abscissa. */
  lemma {:induction false} MomentAbovePivot(y: seq<real>, C: seq<real>, k: nat, pivot: real)
    requires k < |y| && k < |C|
    requires StrictlyIncreasing(y, k + 1) && NonNegative(C, k + 1)
    requires pivot <= y[0]
    ensures pivot * Area(y, C, k) <= Moment(y, C, k)
  {
    MomentSplit(y, C, k, pivot);
    ScaledAreaIsProduct(y, C, k, pivot);
    MomentAboutLeft(y, C, k, pivot);
  }

  /** ... and at most the area times any pivot at or right of the last
      abscissa. */
  lemma {:induction false} MomentBelowPivot(y: seq<real>, C: seq<real>, k: nat, pivot: real)
    requires k < |y| && k < |C|
    requires StrictlyIncreasing(y, k + 1) && NonNegative(C, k + 1)
    requires y[k] <= pivot
    ensures Moment(y, C, k) <= pivot * Area(y, C, k)
  {
    MomentSplit(y, C, k, pivot);
    ScaledAreaIsProduct(y, C, k, pivot);
    MomentAboutRight(y, C, k, pivot);
  }

  /** With a positive area, the centroid is at least any pivot at or left
      of the first abscissa ... */
  lemma {:induction false} CentroidAbovePivot(y: seq<real>, C: seq<real>, k: nat, pivot: real)
    requires k < |y| && k < |C|
    requires StrictlyIncreasing(y, k + 1) && NonNegative(C, k + 1)
    requires Area(y, C, k) > 0.0 && pivot <= y[0]
    ensures pivot <= Moment(y, C, k) / Area(y, C, k)
  {
    MomentAbovePivot(y, C, k, pivot);
    QuotientAtLeast(Moment(y, C, k), Area(y, C, k), pivot);
  }

  /** ... and at most any pivot at or right of the last abscissa. */
  lemma {:induction false} CentroidBelowPivot(y: seq<real>, C: seq<real>, k: nat, pivot: real)
    requires k < |y| && k < |C|
    requires StrictlyIncreasing(y, k + 1) && NonNegative(C, k + 1)
    requires Area(y, C, k) > 0.0 && y[k] <= pivot
    ensures Moment(y, C, k) / Area(y, C, k) <= pivot
  {
    MomentBelowPivot(y, C, k, pivot);
    QuotientAtMost(Moment(y, C, k), Area(y, C, k), pivot);
  }

  /** Over a strictly increasing abscissa with non-negative heights and a
      positive area, the centroid lies between the first and the last
      abscissa. */
  lemma {:induction false} PositiveCentroid(y: seq<real>, C: seq<real>, k: nat)
    requires k < |y| && k < |C|
    requires StrictlyIncreasing(y, k + 1) && NonNegative(C, k + 1)
    requires Area(y, C, k) > 0.0
    ensures y[0] <= Moment(y, C, k) / Area(y, C, k) <= y[k]
  {
    CentroidAbovePivot(y, C, k, y[0]);
    CentroidBelowPivot(y, C, k, y[k]);
  }

  /** The result `own_centroid` computes for the first k segments: the
      moment over the area, or an error when the area is zero. */
  function CentroidOf(y: seq<real>, C: seq<real>, k: nat): Result<real>
    requires k == 0 || (k < |y| && k < |C|)
  {
    if Area(y, C, k) == 0.0 then Err(ZeroDenominator) else Ok(Moment(y, C, k) / Area(y, C, k))
  }

  /** Over a strictly increasing abscissa with non-negative heights the
      centroid is undefined exactly for an all-zero curve, and otherwise lies
      between the first and the last abscissa. */
  lemma {:induction false} CentroidOfFacts(y: seq<real>, C: seq<real>, k: nat)
    requires 0 < k < |y| && k < |C|
    requires StrictlyIncreasing(y, k + 1) && NonNegative(C, k + 1)
    ensures CentroidOf(y, C, k).Err? <==> forall i :: 0 <= i <= k ==> C[i] == 0.0
    ensures CentroidOf(y, C, k).Ok? ==> y[0] <= CentroidOf(y, C, k).value <= y[k]
  {
    AreaFacts(y, C, k);
    if Area(y, C, k) != 0.0 {
      PositiveCentroid(y, C, k);
    }
  }

  /** `own_centroid`: the accumulators start at zero and after the loop hold
      the trapezoid-rule area and moment of the first `length` samples; a
      zero area (always the case for fewer than two samples) is an error
      instead of a division by zero.  Over a strictly increasing abscissa
      with non-negative heights the area vanishes only for an all-zero
      curve, and the centroid lies between the first and the last abscissa. */
  method Centroid(y: array<real>, C: array<real>, length: int) returns (r: Result<real>)
    requires length <= y.Length && length <= C.Length
    ensures r == CentroidOf(y[..], C[..], Segments(length))
    ensures length < 2 ==> r == Err(ZeroDenominator)
    ensures 2 <= length && StrictlyIncreasing(y[..], length) && NonNegative(C[..], length) ==>
              (r.Err? <==> forall i :: 0 <= i < length ==> C[i] == 0.0)
    ensures 2 <= length && StrictlyIncreasing(y[..], length) && NonNegative(C[..], length) && r.Ok? ==>
              y[0] <= r.value <= y[length - 1]
  {
    ghost var ys, cs := y[..], C[..];
    var numerator := 0.0;
    var denominator := 0.0;
    var i := 0;
    while i < length - 1
      invariant 0 <= i <= Segments(length)
      invariant numerator == Moment(ys, cs, i)
      invariant denominator == Area(ys, cs, i)
    {
      AccumulateStep(ys, cs, i);
      numerator := numerator + TrapezoidMoment(y[i], y[i + 1], C[i], C[i + 1]);
      denominator := denominator + TrapezoidArea(y[i], y[i + 1], C[i], C[i + 1]);
      i := i + 1;
    }
    if 2 <= length && StrictlyIncreasing(ys, length) && NonNegative(cs, length) {
      CentroidOfFacts(ys, cs, length - 1);
    }
    if denominator == 0.0 {
      r := Err(ZeroDenominator);
    } else {
      r := Ok(numerator / denominator);
    }
  }
}
