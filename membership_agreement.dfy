/** How the three membership evaluators relate: the two un-chained
    triangles are the same function, and on its domain the un-chained
    evaluator agrees with the chained buffer evaluator except at a
    degenerate falling edge. */
module MembershipAgreement {
  import opened Results
  import opened RealFacts
  import ScalarMembership
  import BufferMembership
  import TriangleExample

  /** The stand-alone `own_Tri` and the float `own_tri` coincide for every
      argument, inside or outside the ordered domain. */
  lemma TrianglesCoincide(x: real, a: real, b: real, c: real)
    ensures TriangleExample.OwnTri(x, a, b, c) == ScalarMembership.OwnTri(x, a, b, c)
  {
  }

  /** For ordered parameters with a proper falling edge (c < d), or away
      from the point c, the un-chained trapezoid is defined exactly where
      stated and then equals the chained sample. */
  lemma TrapezoidsAgree(x: real, a: real, b: real, c: real, d: real)
    requires a <= b <= c <= d
    requires 0.0 <= x || a <= x
    requires c < d || x != c
    ensures ScalarMembership.OwnTrap(x, a, b, c, d) == Some(BufferMembership.TrapSample(x, a, b, c, d))
  {
    ScalarMembership.OwnTrapByRange(x, a, b, c, d);
    if x < a {
      assert BufferMembership.TrapSample(x, a, b, c, d) == 0.0;
    } else if x < b {
      if x == a {
        ZeroOver(x - a, b - a);
        assert BufferMembership.TrapSample(x, a, b, c, d) == 0.0;
      } else {
        assert BufferMembership.TrapSample(x, a, b, c, d) == (x - a) / (b - a);
      }
    } else if x < c {
      assert BufferMembership.TrapSample(x, a, b, c, d) == 1.0;
    } else if x < d {
      if x == c {
        RatioOfEqual(x - d, c - d);
      } else {
        RatioNegated(x - d, c - d);
        assert BufferMembership.TrapSample(x, a, b, c, d) == (d - x) / (d - c);
      }
    } else {
      assert BufferMembership.TrapSample(x, a, b, c, d) == 0.0;
    }
  }

  /** With c == d the two styles differ at x == c: the un-chained test
      `d <= X` fires last and writes 0, the chained test `b <= X <= c` fires
      first and writes 1. */
  lemma TrapezoidsDisagreeAtDegenerateEdge(a: real, b: real, c: real)
    requires a <= b <= c
    ensures ScalarMembership.OwnTrap(c, a, b, c, c) == Some(0.0)
    ensures BufferMembership.TrapSample(c, a, b, c, c) == 1.0
  {
  }

  /** Likewise a triangle with b == c: both un-chained triangles give 0 at
      the peak, where the chained one gives 1.  This is why `TrianglesAgree`
      needs b < c. */
  lemma TrianglesDisagreeAtDegenerateEdge(a: real, b: real)
    requires a <= b
    ensures ScalarMembership.OwnTri(b, a, b, b) == Some(0.0)
    ensures TriangleExample.OwnTri(b, a, b, b) == Some(0.0)
    ensures BufferMembership.TriSample(b, a, b, b) == 1.0
  {
  }

  /** For a <= b < c the three triangles agree wherever the un-chained ones
      are defined. */
  lemma TrianglesAgree(x: real, a: real, b: real, c: real)
    requires a <= b < c
    requires 0.0 <= x || a <= x
    ensures TriangleExample.OwnTri(x, a, b, c) == Some(BufferMembership.TriSample(x, a, b, c))
    ensures ScalarMembership.OwnTri(x, a, b, c) == Some(BufferMembership.TriSample(x, a, b, c))
  {
    TrapezoidsAgree(x, a, b, b, c);
  }
}
