/** Shape conditions on sampled curves, shared by the weighted-mean and the
    trapezoid-rule defuzzifiers. */
module Curves {

  /** The first n heights (or weights) are non-negative. */
  predicate NonNegative(w: seq<real>, n: int)
    requires n <= |w|
  {
    forall i :: 0 <= i < n ==> w[i] >= 0.0
  }

  /** The first n abscissae never decrease. */
  predicate NonDecreasing(y: seq<real>, n: int)
    requires n <= |y|
  {
    forall i, j :: 0 <= i <= j < n ==> y[i] <= y[j]
  }

  /** The first n abscissae strictly increase. */
  predicate StrictlyIncreasing(y: seq<real>, n: int)
    requires n <= |y|
  {
    forall i, j :: 0 <= i < j < n ==> y[i] < y[j]
  }
}
