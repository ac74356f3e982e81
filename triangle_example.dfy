/** The stand-alone triangle of the small double program: four independent
    `if` statements, each overwriting `result` when it holds, and a worked
    example. */
module TriangleExample {
  import opened Results
  import opened RealFacts

  /** `own_Tri`: the four tests in source order, the last one that holds
      giving the value; `None` when none holds. */
  function OwnTri(x: real, a: real, b: real, c: real): (r: Option<real>)
    ensures a <= b <= c ==> (r.Some? <==> 0.0 <= x || a <= x)
    ensures a <= b <= c && r.Some? ==> 0.0 <= r.value <= 1.0
  {
    var r0: Option<real> := None;
    var r1 := if 0.0 <= x && x < a then Some(0.0) else r0;
    var r2 := if a <= x && x < b then Some((x - a) / (b - a)) else r1;
    var r3 := if b <= x && x < c then Some((x - c) / (b - c)) else r2;
    EdgeRatio(x - a, b - a);
    FallingRatio(x - c, b - c);
    if c <= x then Some(0.0) else r3
  }

  /** The value of `own_Tri` range by range, for ordered parameters. */
  lemma OwnTriByRange(x: real, a: real, b: real, c: real)
    requires a <= b <= c
    ensures 0.0 <= x < a ==> OwnTri(x, a, b, c) == Some(0.0)
    ensures a <= x < b ==> OwnTri(x, a, b, c) == Some((x - a) / (b - a))
    ensures b <= x < c ==> OwnTri(x, a, b, c) == Some((x - c) / (b - c))
    ensures c <= x ==> OwnTri(x, a, b, c) == Some(0.0)
    ensures x < 0.0 && x < a ==> OwnTri(x, a, b, c) == None
  {
  }

  /** `main`: the triangle (0, 5, 10) at 3 is 3/5. */
  lemma WorkedExample()
    ensures OwnTri(3.0, 0.0, 5.0, 10.0) == Some(0.6)
  {
  }
}
