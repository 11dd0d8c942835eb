/**
  The per-solid integrator: GetCentroid(Solid) of the command.

  It tessellates the solid, accumulates the volume term of every triangle into cv.Volume and the
  centroid term into cv.Centroid, and finalises by dividing the centroid by four times the raw
  volume sum and only then the volume by six. A tessellation failure gives null.
 */
module SolidCentroid {
  import opened Wrappers
  import opened Geometry
  import opened Integrator
  import opened Tessellation

  /** The value a CentroidVolume holds at one moment. */
  datatype Measure = Measure(centroid: DoubleXYZ, volume: real)

  /** The command's mutable accumulator: raw sums while accumulating, true values once finalised. */
  class CentroidVolume {
    var centroid: DoubleXYZ
    var volume: real

    constructor ()
      ensures centroid == Finite(Zero) && volume == 0.0
    {
      centroid := Finite(Zero);
      volume := 0.0;
    }

    function Value(): Measure
      reads this
    {
      Measure(centroid, volume)
    }
  }

  /**
    The host's Solid as far as the command uses it. `tessellation` is None when
    SolidUtils.TessellateSolidOrShell throws InvalidOperationException; the reference values are
    what solid.ComputeCentroid() and solid.Volume return, read only by the debug cross-checks.
   */
  datatype Solid = Solid(
    faceCount: nat,
    validForTessellation: bool,
    tessellation: Option<TriangulatedSolidOrShell>,
    referenceCentroid: XYZ,
    referenceVolume: real)

  /**
    Finalisation of the raw sums: the centroid first, divided by four times the raw (six-fold)
    volume, then the volume divided by six. A zero raw volume leaves a non-finite centroid.
   */
  function Finalize(rawCentroid: XYZ, rawVolume: real): (m: Measure)
    ensures 6.0 * m.volume == rawVolume
    ensures m.centroid.Finite? <==> rawVolume != 0.0
    ensures m.centroid.Finite? ==> Scale(4.0 * rawVolume, m.centroid.value) == rawCentroid
  {
    Measure(Finite(rawCentroid).DividedBy(4.0 * rawVolume), rawVolume / 6.0)
  }

  /** The finalised centroid and volume of a tessellation. */
  function SolidMeasure(t: TriangulatedSolidOrShell): Measure {
    Finalize(RawCentroid(t), RawVolume(t))
  }

  /**
    The order of the two divisions matters: the centroid divisor is 24 times the final volume
    (four times the raw sum); dividing by four times the final volume instead, as swapping the two
    statements would, gives six times the centroid.
   */
  lemma FinalizeOrder(rawCentroid: XYZ, rawVolume: real)
    requires rawVolume != 0.0
    ensures Finalize(rawCentroid, rawVolume).centroid
         == Finite(rawCentroid).DividedBy(24.0 * Finalize(rawCentroid, rawVolume).volume)
    ensures Finite(rawCentroid).DividedBy(4.0 * Finalize(rawCentroid, rawVolume).volume)
         == Finalize(rawCentroid, rawVolume).centroid.Times(6.0)
  {
    var m := Finalize(rawCentroid, rawVolume);
    assert 24.0 * m.volume == 4.0 * rawVolume;
    var d := 4.0 * rawVolume;
    var p := Div(rawCentroid, d);
    var q := Div(rawCentroid, 4.0 * m.volume);
    assert m.centroid.value == p;
    assert q.x == 6.0 * p.x && q.y == 6.0 * p.y && q.z == 6.0 * p.z;
  }

  /** The tessellation made of one component holding the single triangle (v0, v1, v2). */
  function SingleTriangle(v0: XYZ, v1: XYZ, v2: XYZ): TriangulatedSolidOrShell {
    var c := ShellComponentData([v0, v1, v2], [TriangleInShellComponent(0, 1, 2)]);
    TriangulatedSolidOrShell([c])
  }

  lemma SingleTriangleRawSums(v0: XYZ, v1: XYZ, v2: XYZ)
    ensures RawVolume(SingleTriangle(v0, v1, v2)) == VolumeTerm(Triangle(v0, v1, v2))
    ensures RawCentroid(SingleTriangle(v0, v1, v2)) == CentroidTerm(Triangle(v0, v1, v2))
  {
    var t := SingleTriangle(v0, v1, v2);
    var tri := Triangle(v0, v1, v2);
    assert ComponentTriangles(t.components[0]) == [tri];
    OneComponentSums(t.components[0]);
    assert [tri] == [] + [tri];
    SumsAppendOne([], tri);
  }

  /**
    For a single triangle the command returns the tetrahedron spanned by the origin and the
    triangle: signed volume v0 . (v1 x v2) / 6 and, when that is non-zero, centroid (v0+v1+v2)/4.
   */
  lemma SingleTriangleIsTetrahedron(v0: XYZ, v1: XYZ, v2: XYZ)
    ensures SolidMeasure(SingleTriangle(v0, v1, v2)).volume == Dot(v0, Cross(v1, v2)) / 6.0
    ensures Dot(v0, Cross(v1, v2)) != 0.0 ==>
      SolidMeasure(SingleTriangle(v0, v1, v2)).centroid == Finite(Scale(0.25, Add(Add(v0, v1), v2)))
  {
    SingleTriangleRawSums(v0, v1, v2);
    var v := VolumeTerm(Triangle(v0, v1, v2));
    if v != 0.0 {
      FinalizeOneTerm(v, Add(Add(v0, v1), v2));
    }
  }

  /** Finalising v * s against v gives s / 4. */
  lemma FinalizeOneTerm(v: real, s: XYZ)
    requires v != 0.0
    ensures Finalize(Scale(v, s), v).centroid == Finite(Scale(0.25, s))
  {
    var p := Finalize(Scale(v, s), v).centroid.value;
    assert 4.0 * v * p.x == v * s.x && 4.0 * v * p.y == v * s.y && 4.0 * v * p.z == v * s.z;
  }

  /** -c / -d is c / d. */
  lemma NegatedQuotient(c: real, d: real)
    requires d != 0.0
    ensures (-c) / (-d) == c / d
  {
  }

  /** Negating both raw sums negates the volume and keeps the centroid. */
  lemma FinalizeNegated(rawCentroid: XYZ, rawVolume: real)
    ensures Finalize(Neg(rawCentroid), -rawVolume).volume == -Finalize(rawCentroid, rawVolume).volume
    ensures Finalize(Neg(rawCentroid), -rawVolume).centroid == Finalize(rawCentroid, rawVolume).centroid
  {
    if rawVolume != 0.0 {
      var d := 4.0 * rawVolume;
      assert 4.0 * -rawVolume == -d;
      NegatedQuotient(rawCentroid.x, d);
      NegatedQuotient(rawCentroid.y, d);
      NegatedQuotient(rawCentroid.z, d);
      assert Div(Neg(rawCentroid), -d) == Div(rawCentroid, d);
    }
  }

  /** Reversing the winding everywhere negates the volume and leaves the centroid as it was. */
  lemma {:induction false} ReverseWindingFinalized(t: TriangulatedSolidOrShell)
    ensures SolidMeasure(ReverseWinding(t)).volume == -SolidMeasure(t).volume
    ensures SolidMeasure(ReverseWinding(t)).centroid == SolidMeasure(t).centroid
  {
    ReverseWindingNegatesRawSums(t);
    FinalizeNegated(RawCentroid(t), RawVolume(t));
  }

  /** The accumulator holding the raw sums of a tessellation finalises to its result. */
  lemma FinalizeRawSums(t: TriangulatedSolidOrShell, centroid: DoubleXYZ, volume: real)
    requires centroid == Finite(RawCentroid(t)) && volume == RawVolume(t)
    ensures Measure(centroid.DividedBy(4.0 * volume), volume / 6.0) == SolidMeasure(t)
  {
  }

  /** Debug.Assert( 0.6 > diffCentroid.GetLength() ): false for a NaN or infinite centroid. */
  predicate CentroidAssertHolds(centroid: DoubleXYZ, reference: XYZ) {
    centroid.Finite? && LengthSquared(Sub(centroid.value, reference)) < 0.36
  }

  /** Debug.Assert( 0.3 > Math.Abs( diffVolume / cv.Volume ) ): false when the volume is zero. */
  predicate VolumeAssertHolds(volume: real, reference: real) {
    volume != 0.0 && -0.3 < (volume - reference) / volume < 0.3
  }

  /**
    The inner loop of GetCentroid(Solid) for one shell component: every triangle's volume term is
    added to cv.Volume and its centroid term to cv.Centroid, first triangle to last. `done` holds
    the triangles of the components summed before this one.
   */
  method AccumulateComponent(cv: CentroidVolume, component: ShellComponent, ghost done: seq<Triangle>)
    requires cv.centroid == Finite(CentroidSum(done)) && cv.volume == VolumeSum(done)
    modifies cv
    ensures cv.centroid == Finite(CentroidSum(done + ComponentTriangles(component)))
    ensures cv.volume == VolumeSum(done + ComponentTriangles(component))
  {
    var m := |component.triangles|;
    ghost var tris := ComponentTriangles(component);
    assert done + tris[..0] == done;
    for j := 0 to m
      invariant cv.centroid == Finite(CentroidSum(done + tris[..j]))
      invariant cv.volume == VolumeSum(done + tris[..j])
    {
      var t := component.triangles[j];
      var v0 := component.vertices[t.index0];
      var v1 := component.vertices[t.index1];
      var v2 := component.vertices[t.index2];
      var v := SignedVolumeTerm(v0, v1, v2);
      assert tris[j] == Triangle(v0, v1, v2);
      SumsStepAt(done, tris, j, v0, v1, v2);
      cv.centroid := cv.centroid.Plus(Finite(Scale(v, Add(Add(v0, v1), v2))));
      cv.volume := cv.volume + v;
    }
    assert tris[..m] == tris;
  }

  /**
    GetCentroid(Solid). The two out-parameters report whether each Debug.Assert would hold; they
    are computed from the finished cv and the solid's reference values and change nothing.
    The loops add the terms of the triangles in the order TrianglesOf lists them, which
    VisitsOfEnumerateTriangles shows is every triangle of every component, once, in order.
   */
  method GetSolidCentroid(solid: Solid)
    returns (cv: CentroidVolume?, centroidAssert: bool, volumeAssert: bool)
    ensures cv == null <==> solid.tessellation.None?
    ensures cv == null ==> centroidAssert && volumeAssert
    ensures cv != null ==> fresh(cv)
    ensures cv != null ==> cv.Value() == SolidMeasure(solid.tessellation.value)
    ensures cv != null ==> centroidAssert == CentroidAssertHolds(cv.centroid, solid.referenceCentroid)
    ensures cv != null ==> volumeAssert == VolumeAssertHolds(cv.volume, solid.referenceVolume)
  {
    centroidAssert, volumeAssert := true, true;
    if solid.tessellation.None? {
      // TessellateSolidOrShell threw InvalidOperationException: nothing is accumulated.
      return null, centroidAssert, volumeAssert;
    }
    var triangulation := solid.tessellation.value;
    cv := new CentroidVolume();
    var cs := triangulation.components;
    var n := |cs|;
    for i := 0 to n
      invariant cv.centroid == Finite(CentroidSum(TrianglesOf(cs[..i])))
      invariant cv.volume == VolumeSum(TrianglesOf(cs[..i]))
    {
      AccumulateComponent(cv, cs[i], TrianglesOf(cs[..i]));
      TrianglesOfPrefixStep(cs, i);
    }
    assert cs[..n] == cs;
    FinalizeRawSums(triangulation, cv.centroid, cv.volume);
    cv.centroid := cv.centroid.DividedBy(4.0 * cv.volume);
    centroidAssert := CentroidAssertHolds(cv.centroid, solid.referenceCentroid);
    cv.volume := cv.volume / 6.0;
    volumeAssert := VolumeAssertHolds(cv.volume, solid.referenceVolume);
  }
}
