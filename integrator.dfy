/**
  The per-triangle integrand of the signed-tetrahedron (divergence theorem) method, and its sums
  over a sequence of triangles.

  For a triangle (v0, v1, v2) the term v0 . (v1 x v2) is six times the signed volume of the
  tetrahedron spanned by the origin and the triangle; term * (v0 + v1 + v2) is 24 times that
  tetrahedron's signed volume times its centroid (v0 + v1 + v2) / 4.
 */
module Integrator {
  import opened Geometry

  /** A triangle given by its three vertex positions; the order of the vertices is its winding. */
  datatype Triangle = Triangle(v0: XYZ, v1: XYZ, v2: XYZ)

  /** The volume term of one triangle, written out coordinate by coordinate as the command does. */
  function SignedVolumeTerm(v0: XYZ, v1: XYZ, v2: XYZ): (v: real)
    ensures v == Dot(v0, Cross(v1, v2))
  {
    v0.x * (v1.y * v2.z - v2.y * v1.z)
    + v0.y * (v1.z * v2.x - v2.z * v1.x)
    + v0.z * (v1.x * v2.y - v2.x * v1.y)
  }

  function VolumeTerm(t: Triangle): real {
    SignedVolumeTerm(t.v0, t.v1, t.v2)
  }

  /** What one triangle adds to the centroid accumulator: v * (v0 + v1 + v2). */
  function CentroidTerm(t: Triangle): XYZ {
    Scale(VolumeTerm(t), Add(Add(t.v0, t.v1), t.v2))
  }

  /** Exchanging any two vertices (reversing the winding) negates the term. */
  lemma SwapNegatesTerm(v0: XYZ, v1: XYZ, v2: XYZ)
    ensures SignedVolumeTerm(v1, v0, v2) == -SignedVolumeTerm(v0, v1, v2)
    ensures SignedVolumeTerm(v0, v2, v1) == -SignedVolumeTerm(v0, v1, v2)
    ensures SignedVolumeTerm(v2, v1, v0) == -SignedVolumeTerm(v0, v1, v2)
  {
  }

  /** Rotating the vertices (same winding, other starting vertex) keeps the term. */
  lemma RotationKeepsTerm(v0: XYZ, v1: XYZ, v2: XYZ)
    ensures SignedVolumeTerm(v1, v2, v0) == SignedVolumeTerm(v0, v1, v2)
    ensures SignedVolumeTerm(v2, v0, v1) == SignedVolumeTerm(v0, v1, v2)
  {
  }

  /** A triangle with a vertex at the origin spans a flat tetrahedron and contributes nothing. */
  lemma ZeroVertexTerm(v0: XYZ, v1: XYZ, v2: XYZ)
    requires v0 == Zero || v1 == Zero || v2 == Zero
    ensures SignedVolumeTerm(v0, v1, v2) == 0.0
  {
  }

  /**
    A triangle whose plane passes through the origin contributes nothing: the three vertices are
    linearly dependent (some non-trivial combination of them is the origin). This covers a vertex
    at the origin, two vertices on one line through the origin, and all three on one plane through it.
   */
  lemma CoplanarWithOriginTerm(v0: XYZ, v1: XYZ, v2: XYZ, al: real, be: real, ga: real)
    requires al != 0.0 || be != 0.0 || ga != 0.0
    requires Add(Add(Scale(al, v0), Scale(be, v1)), Scale(ga, v2)) == Zero
    ensures SignedVolumeTerm(v0, v1, v2) == 0.0
  {
    if ga != 0.0 {
      DependentThirdVertex(v0, v1, v2, al, be, ga);
    } else if al != 0.0 {
      assert Add(Add(Scale(be, v1), Scale(ga, v2)), Scale(al, v0)) == Zero;
      DependentThirdVertex(v1, v2, v0, be, ga, al);
      RotationKeepsTerm(v0, v1, v2);
    } else {
      assert Add(Add(Scale(ga, v2), Scale(al, v0)), Scale(be, v1)) == Zero;
      DependentThirdVertex(v2, v0, v1, ga, al, be);
      RotationKeepsTerm(v0, v1, v2);
    }
  }

  /** The case of a non-zero coefficient on the third vertex: the term is linear in that vertex. */
  lemma DependentThirdVertex(v0: XYZ, v1: XYZ, v2: XYZ, al: real, be: real, ga: real)
    requires ga != 0.0
    requires Add(Add(Scale(al, v0), Scale(be, v1)), Scale(ga, v2)) == Zero
    ensures SignedVolumeTerm(v0, v1, v2) == 0.0
  {
    var n := Cross(v0, v1);
    SwapNegatesTerm(v0, v0, v1);
    SwapNegatesTerm(v1, v0, v1);
    assert Dot(v0, n) == SignedVolumeTerm(v0, v0, v1) == 0.0;
    assert Dot(v1, n) == SignedVolumeTerm(v1, v0, v1) == 0.0;
    DotOfCombination(al, be, ga, v0, v1, v2, n);
    assert ga * Dot(v2, n) == 0.0;
    RotationKeepsTerm(v0, v1, v2);
    assert SignedVolumeTerm(v0, v1, v2) == SignedVolumeTerm(v2, v0, v1) == Dot(v2, n);
  }

  /** The dot product is linear in its first argument. */
  lemma DotOfCombination(al: real, be: real, ga: real, a: XYZ, b: XYZ, c: XYZ, n: XYZ)
    ensures Dot(Add(Add(Scale(al, a), Scale(be, b)), Scale(ga, c)), n)
         == al * Dot(a, n) + be * Dot(b, n) + ga * Dot(c, n)
  {
    DistributeOver(al, be, ga, a.x, b.x, c.x, n.x);
    DistributeOver(al, be, ga, a.y, b.y, c.y, n.y);
    DistributeOver(al, be, ga, a.z, b.z, c.z, n.z);
    DistributeOver(al, al, al, a.x * n.x, a.y * n.y, a.z * n.z, 1.0);
    DistributeOver(be, be, be, b.x * n.x, b.y * n.y, b.z * n.z, 1.0);
    DistributeOver(ga, ga, ga, c.x * n.x, c.y * n.y, c.z * n.z, 1.0);
  }

  /** Multiplication distributes over a three-term linear combination. */
  lemma DistributeOver(al: real, be: real, ga: real, p: real, q: real, r: real, m: real)
    ensures (al * p + be * q + ga * r) * m == al * (p * m) + be * (q * m) + ga * (r * m)
  {
  }

  /** Sum of the volume terms, accumulated first to last as the command's loop does. */
  function VolumeSum(ts: seq<Triangle>): real
    decreases |ts|
  {
    if ts == [] then 0.0 else VolumeSum(ts[..|ts| - 1]) + VolumeTerm(ts[|ts| - 1])
  }

  /** Sum of the centroid terms, accumulated first to last. */
  function CentroidSum(ts: seq<Triangle>): XYZ
    decreases |ts|
  {
    if ts == [] then Zero else Add(CentroidSum(ts[..|ts| - 1]), CentroidTerm(ts[|ts| - 1]))
  }

  /** The sums after one more triangle. */
  lemma {:induction false} SumsAppendOne(ts: seq<Triangle>, t: Triangle)
    ensures VolumeSum(ts + [t]) == VolumeSum(ts) + VolumeTerm(t)
    ensures CentroidSum(ts + [t]) == Add(CentroidSum(ts), CentroidTerm(t))
  {
    assert (ts + [t])[..|ts|] == ts;
  }

  /** The sums over `done` and the first j + 1 of `ts`, from those over the first j. */
  lemma {:induction false} SumsPrefixStep(done: seq<Triangle>, ts: seq<Triangle>, j: nat)
    requires j < |ts|
    ensures VolumeSum(done + ts[..j + 1]) == VolumeSum(done + ts[..j]) + VolumeTerm(ts[j])
    ensures CentroidSum(done + ts[..j + 1]) == Add(CentroidSum(done + ts[..j]), CentroidTerm(ts[j]))
  {
    assert done + ts[..j + 1] == (done + ts[..j]) + [ts[j]];
    SumsAppendOne(done + ts[..j], ts[j]);
  }

  /** The same step with the triangle given by its vertices and its terms written out. */
  lemma {:induction false} SumsStepAt(done: seq<Triangle>, ts: seq<Triangle>, j: nat, v0: XYZ, v1: XYZ, v2: XYZ)
    requires j < |ts| && ts[j] == Triangle(v0, v1, v2)
    ensures VolumeSum(done + ts[..j + 1]) == VolumeSum(done + ts[..j]) + SignedVolumeTerm(v0, v1, v2)
    ensures CentroidSum(done + ts[..j + 1])
         == Add(CentroidSum(done + ts[..j]), Scale(SignedVolumeTerm(v0, v1, v2), Add(Add(v0, v1), v2)))
  {
    SumsPrefixStep(done, ts, j);
  }

  /** Both sums are additive: the triangles of two pieces may be summed piece by piece. */
  lemma {:induction false} SumsOfConcatenation(a: seq<Triangle>, b: seq<Triangle>)
    ensures VolumeSum(a + b) == VolumeSum(a) + VolumeSum(b)
    ensures CentroidSum(a + b) == Add(CentroidSum(a), CentroidSum(b))
    decreases |b|
  {
    if b == [] {
      assert a + b == a;
    } else {
      var b' := b[..|b| - 1];
      assert (a + b)[..|a + b| - 1] == a + b';
      assert (a + b)[|a + b| - 1] == b[|b| - 1];
      SumsOfConcatenation(a, b');
    }
  }

  /** The same triangle with the opposite winding. */
  function Reversed(t: Triangle): Triangle {
    Triangle(t.v0, t.v2, t.v1)
  }

  function ReversedAll(ts: seq<Triangle>): (r: seq<Triangle>)
    ensures |r| == |ts|
    ensures forall k :: 0 <= k < |ts| ==> r[k] == Reversed(ts[k])
  {
    seq(|ts|, k requires 0 <= k < |ts| => Reversed(ts[k]))
  }

  /** Reversing the winding of one triangle negates both of its terms. */
  lemma ReversedTerms(t: Triangle)
    ensures VolumeTerm(Reversed(t)) == -VolumeTerm(t)
    ensures CentroidTerm(Reversed(t)) == Neg(CentroidTerm(t))
  {
    SwapNegatesTerm(t.v0, t.v1, t.v2);
    assert Add(Add(t.v0, t.v2), t.v1) == Add(Add(t.v0, t.v1), t.v2);
  }

  /** Reversing the winding of every triangle negates both sums. */
  lemma {:induction false} ReversedWindingSums(ts: seq<Triangle>)
    ensures VolumeSum(ReversedAll(ts)) == -VolumeSum(ts)
    ensures CentroidSum(ReversedAll(ts)) == Neg(CentroidSum(ts))
    decreases |ts|
  {
    if ts != [] {
      var last := ts[|ts| - 1];
      assert ReversedAll(ts)[..|ts| - 1] == ReversedAll(ts[..|ts| - 1]);
      ReversedWindingSums(ts[..|ts| - 1]);
      ReversedTerms(last);
    }
  }
}
