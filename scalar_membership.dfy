/** The scalar helpers of the float tipping program: `max`, `min`, and the
    trapezoid and triangle evaluators written as independent (un-chained)
    `if` statements, where every test that holds overwrites `result` and a
    value no test assigns is left undefined. */
module ScalarMembership {
  import opened Results
  import opened RealFacts

  function Max(a: real, b: real): (r: real)
    ensures r >= a && r >= b
    ensures r == a || r == b
  {
    if a >= b then a else b
  }

  function Min(a: real, b: real): (r: real)
    ensures r <= a && r <= b
    ensures r == a || r == b
  {
    if a <= b then a else b
  }

  predicate Ordered(a: real, b: real, c: real, d: real) {
    a <= b <= c <= d
  }

  /** `own_trap`: five independent tests, each overwriting the result when it
      holds; `None` when none holds.  Every fractional branch is guarded by a
      range that is empty unless its denominator is non-zero. */
  function OwnTrap(x: real, a: real, b: real, c: real, d: real): (r: Option<real>)
    ensures Ordered(a, b, c, d) ==> (r.Some? <==> 0.0 <= x || a <= x)
    ensures Ordered(a, b, c, d) && r.Some? ==> 0.0 <= r.value <= 1.0
  {
    var r0: Option<real> := None;
    var r1 := if 0.0 <= x && x < a then Some(0.0) else r0;
    var r2 := if a <= x && x < b then Some((x - a) / (b - a)) else r1;
    var r3 := if b <= x && x < c then Some(1.0) else r2;
    var r4 := if c <= x && x < d then Some((x - d) / (c - d)) else r3;
    EdgeRatio(x - a, b - a);
    FallingRatio(x - d, c - d);
    if d <= x then Some(0.0) else r4
  }

  /** `own_tri`: the trapezoid whose two plateau points are both `b`. */
  function OwnTri(x: real, a: real, b: real, c: real): (r: Option<real>)
    ensures a <= b <= c ==> (r.Some? <==> 0.0 <= x || a <= x)
    ensures a <= b <= c && r.Some? ==> 0.0 <= r.value <= 1.0
  {
    OwnTrap(x, a, b, b, c)
  }

  /** The value of `own_trap` range by range, for ordered parameters: the
      guarded ranges do not overlap, so exactly the one test whose range
      holds decides the value, whatever the order of the tests. */
  lemma OwnTrapByRange(x: real, a: real, b: real, c: real, d: real)
    requires Ordered(a, b, c, d)
    ensures 0.0 <= x < a ==> OwnTrap(x, a, b, c, d) == Some(0.0)
    ensures a <= x < b ==> OwnTrap(x, a, b, c, d) == Some((x - a) / (b - a))
    ensures b <= x < c ==> OwnTrap(x, a, b, c, d) == Some(1.0)
    ensures c <= x < d ==> OwnTrap(x, a, b, c, d) == Some((x - d) / (c - d))
    ensures d <= x ==> OwnTrap(x, a, b, c, d) == Some(0.0)
    ensures x < 0.0 && x < a ==> OwnTrap(x, a, b, c, d) == None
  {
  }

  /** The falling edge reaches exactly 1 at its left end: the value at `c`
      is 1 whenever `c < d`, and the triangle's peak `b` is reached through
      that branch. */
  lemma OwnTriPeak(a: real, b: real, c: real)
    requires a <= b < c
    ensures OwnTri(b, a, b, c) == Some(1.0)
  {
    RatioOfEqual(b - c, b - c);
  }

  /** The rising and falling edges are the straight lines through the
      corner points. */
  lemma OwnTrapEdges(x: real, a: real, b: real, c: real, d: real)
    requires Ordered(a, b, c, d)
    ensures a <= x < b ==> OwnTrap(x, a, b, c, d).value * (b - a) == x - a
    ensures c <= x < d ==> OwnTrap(x, a, b, c, d).value * (d - c) == d - x
  {
  }
}
