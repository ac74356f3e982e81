/** Small facts about real arithmetic that the membership bounds rest on. */
module RealFacts {

  /** The sign of a factor from the sign of a product. */
  lemma SameSign(u: real, v: real)
    ensures v > 0.0 && u * v >= 0.0 ==> u >= 0.0
    ensures v > 0.0 && u * v > 0.0 ==> u > 0.0
    ensures v < 0.0 && u * v <= 0.0 ==> u >= 0.0
    ensures v < 0.0 && u * v < 0.0 ==> u > 0.0
  {
  }

  /** A proper part of a non-zero span, both of the same sign, is a
      fraction in [0, 1). */
  lemma EdgeRatio(part: real, span: real)
    ensures 0.0 <= part < span || span < part <= 0.0 ==> 0.0 <= part / span < 1.0
  {
    if 0.0 <= part < span || span < part <= 0.0 {
      var q := part / span;
      SameSign(1.0 - q, span);
      SameSign(q, span);
    }
  }

  /** A fraction of a span strictly inside it (0 < part < span, or the
      mirror image) is strictly between 0 and 1. */
  lemma InnerRatio(part: real, span: real)
    ensures 0.0 < part < span || span < part < 0.0 ==> 0.0 < part / span < 1.0
  {
    if 0.0 < part < span || span < part < 0.0 {
      var q := part / span;
      SameSign(1.0 - q, span);
      SameSign(q, span);
    }
  }

  /** A negative part no smaller than a negative span is a fraction in
      (0, 1]. */
  lemma FallingRatio(part: real, span: real)
    ensures span <= part < 0.0 ==> 0.0 < part / span <= 1.0
  {
    if span <= part < 0.0 {
      var q := part / span;
      SameSign(q, span);
      assert (1.0 - q) * span == span - part;
      SameSign(1.0 - q, span);
    }
  }

  /** A non-zero number over itself is 1. */
  lemma RatioOfEqual(part: real, span: real)
    requires part == span && span != 0.0
    ensures part / span == 1.0
  {
  }

  /** Zero over a non-zero number is zero. */
  lemma ZeroOver(part: real, span: real)
    requires part == 0.0 && span != 0.0
    ensures part / span == 0.0
  {
  }

  /** Negating both sides of a fraction leaves it unchanged. */
  lemma RatioNegated(part: real, span: real)
    requires span != 0.0
    ensures part / span == (-part) / (-span)
  {
    assert (-part) / (-span) * span == part;
  }

  /** A product of two non-negative factors is non-negative, and positive
      when both are. */
  lemma ProductSign(u: real, v: real)
    ensures u >= 0.0 && v >= 0.0 ==> u * v >= 0.0
    ensures u > 0.0 && v > 0.0 ==> u * v > 0.0
  {
  }

  /** Multiplication distributes over a sum. */
  lemma Distribute(w: real, a: real, s: real, b: real)
    requires b == a + s
    ensures w * b == w * a + w * s
  {
  }

  /** A quotient by a positive number is at least any bound whose
      multiple by the denominator the numerator reaches. */
  lemma QuotientAtLeast(num: real, den: real, lo: real)
    requires den > 0.0 && lo * den <= num
    ensures lo <= num / den
  {
    var q := num / den;
    assert (q - lo) * den == num - lo * den;
    SameSign(q - lo, den);
  }

  /** ... and at most any bound whose multiple by the denominator the
      numerator does not exceed. */
  lemma QuotientAtMost(num: real, den: real, hi: real)
    requires den > 0.0 && num <= hi * den
    ensures num / den <= hi
  {
    var q := num / den;
    assert (hi - q) * den == hi * den - num;
    SameSign(hi - q, den);
  }
}
