/**
  Two places where GetCentroid(Element, Options) does not do what its own comments describe, each
  with the evidently intended definition and what that definition achieves.

  1. The partial results are weighted by their volumes, and the comment says the weights are
     factored out again at the end; the code divides by the count times the total volume, so the
     combined centroid is the volume-weighted mean divided once more by the number of solids.
  2. `inst` is reassigned for every direct object, not only for geometry instances, so the
     symbol-geometry fallback is lost whenever the instance is followed by any other object.
 */
module Findings {
  import opened Wrappers
  import opened Geometry
  import opened Tessellation
  import opened SolidCentroid
  import opened ElementCentroid

  // ---------------------------------------------------------------------------------------------
  // 1. Count-divided combination

  /** The volume-weighted mean of the partial centroids, and the total volume. */
  function CombineWeighted(ms: seq<Measure>): Measure {
    Measure(WeightedCentroidSum(ms).DividedBy(TotalVolume(ms)), TotalVolume(ms))
  }

  /** The combination as written is the weighted mean divided by the number of entries. */
  lemma {:induction false} CombineIsWeightedOverCount(ms: seq<Measure>)
    ensures Combine(ms).volume == CombineWeighted(ms).volume
    ensures Combine(ms).centroid == CombineWeighted(ms).centroid.DividedBy(|ms| as real)
  {
    var s, v, n := WeightedCentroidSum(ms), TotalVolume(ms), |ms| as real;
    assert CombineDivisor(ms) == n * v;
    if s.Finite? && n != 0.0 && v != 0.0 {
      var w := s.value;
      QuotientOfProduct(w.x, n, v);
      QuotientOfProduct(w.y, n, v);
      QuotientOfProduct(w.z, n, v);
      assert Div(w, n * v) == Div(Div(w, v), n);
    }
  }

  /** x / (n * v) is x / v / n. */
  lemma QuotientOfProduct(x: real, n: real, v: real)
    requires n != 0.0 && v != 0.0
    ensures x / (n * v) == (x / v) / n
  {
  }

  /**
    For a solid of non-zero raw volume, weighting its result by its volume gives back its raw
    centroid sum over 24.
   */
  lemma {:induction false} WeightedTermOfSolid(t: TriangulatedSolidOrShell)
    requires RawVolume(t) != 0.0
    ensures SolidMeasure(t).centroid.Times(SolidMeasure(t).volume) == Finite(Scale(1.0 / 24.0, RawCentroid(t)))
  {
    var r, c := RawVolume(t), RawCentroid(t);
    var m := SolidMeasure(t);
    var p := Div(c, 4.0 * r);
    assert m == Measure(Finite(p), r / 6.0);
    WeightOfFinalizedCentroid(r, c);
  }

  lemma WeightOfFinalizedCentroid(r: real, c: XYZ)
    requires r != 0.0
    ensures Scale(r / 6.0, Div(c, 4.0 * r)) == Scale(1.0 / 24.0, c)
  {
    var p := Div(c, 4.0 * r);
    WeightOfOneCoordinate(r, p.x, c.x);
    WeightOfOneCoordinate(r, p.y, c.y);
    WeightOfOneCoordinate(r, p.z, c.z);
  }

  /** (r / 6) * x is c / 24 when 4 * r * x is c. */
  lemma WeightOfOneCoordinate(r: real, x: real, c: real)
    requires (4.0 * r) * x == c
    ensures (r / 6.0) * x == (1.0 / 24.0) * c
  {
  }

  /** For solids of non-zero volume the weighted sum is the raw centroid sum of their union over 24. */
  lemma {:induction false} WeightedSumIsUnionCentroid(solids: seq<Solid>)
    requires forall k :: 0 <= k < |solids| ==> solids[k].tessellation.Some?
    requires forall k :: 0 <= k < |solids| ==> RawVolume(solids[k].tessellation.value) != 0.0
    ensures WeightedCentroidSum(Measures(solids)) == Finite(Scale(1.0 / 24.0, RawCentroid(UnionOf(solids))))
    decreases |solids|
  {
    if solids == [] {
      assert AllTriangles(UnionOf(solids)) == [];
    } else {
      var init := solids[..|solids| - 1];
      var t := solids[|solids| - 1].tessellation.value;
      assert Measures(solids)[..|solids| - 1] == Measures(init);
      WeightedSumIsUnionCentroid(init);
      WeightedTermOfSolid(t);
      RawSumsOfUnion(UnionOf(init), t);
      ScaleDistributes(1.0 / 24.0, RawCentroid(UnionOf(init)), RawCentroid(t));
    }
  }

  /**
    The intended combination of solids of non-zero volume is exactly the result the per-solid
    integrator gives for all their tessellations taken together as one.
   */
  lemma {:induction false} CombineWeightedIsUnionMeasure(solids: seq<Solid>)
    requires forall k :: 0 <= k < |solids| ==> solids[k].tessellation.Some?
    requires forall k :: 0 <= k < |solids| ==> RawVolume(solids[k].tessellation.value) != 0.0
    ensures CombineWeighted(Measures(solids)) == SolidMeasure(UnionOf(solids))
  {
    var ms := Measures(solids);
    var r, c := RawVolume(UnionOf(solids)), RawCentroid(UnionOf(solids));
    assert WeightedCentroidSum(ms) == Finite(Scale(1.0 / 24.0, c)) by {
      WeightedSumIsUnionCentroid(solids);
    }
    assert TotalVolume(ms) == r / 6.0 by {
      TotalVolumeIsUnionVolume(solids);
    }
    assert r / 6.0 != 0.0 <==> r != 0.0;
    if r != 0.0 {
      QuotientOfWeightedCentroid(r, c);
    }
  }

  lemma QuotientOfWeightedCentroid(r: real, c: XYZ)
    requires r != 0.0
    ensures Div(Scale(1.0 / 24.0, c), r / 6.0) == Div(c, 4.0 * r)
  {
    QuotientOfOneCoordinate(r, c.x);
    QuotientOfOneCoordinate(r, c.y);
    QuotientOfOneCoordinate(r, c.z);
  }

  /** (c / 24) / (r / 6) is c / (4 * r). */
  lemma QuotientOfOneCoordinate(r: real, c: real)
    requires r != 0.0
    ensures ((1.0 / 24.0) * c) / (r / 6.0) == c / (4.0 * r)
  {
  }

  /** The same entry twice: as written half its centroid, as intended its centroid. */
  lemma {:induction false} CombineTwiceTheSame(m: Measure)
    requires m.centroid.Finite? && m.volume != 0.0
    ensures Combine([m, m]) == Measure(m.centroid.Times(0.5), 2.0 * m.volume)
    ensures CombineWeighted([m, m]) == Measure(m.centroid, 2.0 * m.volume)
  {
    var ms := [m, m];
    var v, c := m.volume, m.centroid.value;
    var w := Scale(v, c);
    assert WeightedCentroidSum(ms) == Finite(Add(Add(Zero, w), w)) && TotalVolume(ms) == 0.0 + v + v by {
      CombineStep(ms, 0);
      CombineStep(ms, 1);
      assert ms[..0] == [] && ms[..2] == ms;
    }
    assert CombineDivisor(ms) == 2.0 * (0.0 + v + v);
    TwiceTheSameTerm(v, c);
  }

  lemma TwiceTheSameTerm(v: real, c: XYZ)
    requires v != 0.0
    ensures Div(Add(Add(Zero, Scale(v, c)), Scale(v, c)), 2.0 * (0.0 + v + v)) == Scale(0.5, c)
    ensures Div(Add(Add(Zero, Scale(v, c)), Scale(v, c)), 0.0 + v + v) == c
  {
    var x, y, z := c.x, c.y, c.z;
    var w := Add(Add(Zero, Scale(v, c)), Scale(v, c));
    assert w == XYZ(0.0 + v * x + v * x, 0.0 + v * y + v * y, 0.0 + v * z + v * z);
    TwiceOfOneCoordinate(v, x);
    TwiceOfOneCoordinate(v, y);
    TwiceOfOneCoordinate(v, z);
    assert Scale(0.5, c) == XYZ(0.5 * x, 0.5 * y, 0.5 * z);
    assert c == XYZ(x, y, z);
  }

  /**
    An element holding the same solid of non-zero volume twice: as written its centroid is half
    the solid's own centroid; the weighted mean gives the solid's centroid back.
   */
  lemma {:induction false} TwiceTheSameSolidHalvesCentroid(s: Solid)
    requires Eligible(s) && RawVolume(s.tessellation.value) != 0.0
    ensures ElementMeasure(Element(Some([SolidObject(s), SolidObject(s)]))) ==
      Some(Measure(SolidMeasure(s.tessellation.value).centroid.Times(0.5), 2.0 * SolidMeasure(s.tessellation.value).volume))
    ensures CombineWeighted(Measures([s, s])) ==
      Measure(SolidMeasure(s.tessellation.value).centroid, 2.0 * SolidMeasure(s.tessellation.value).volume)
  {
    var m := SolidMeasure(s.tessellation.value);
    var obj := SolidObject(s);
    assert [obj, obj] == [obj] + [obj];
    ContributorsOfConcatenation([obj], [obj]);
    ContributorsOfOne(obj);
    assert CollectedSolids([obj, obj]) == [s, s];
    assert Measures([s, s]) == [m, m];
    CombineTwiceTheSame(m);
  }

  /** Two equal weighted terms over twice the count times twice the weight, and over twice the weight. */
  lemma TwiceOfOneCoordinate(v: real, x: real)
    requires v != 0.0
    ensures (0.0 + v * x + v * x) / (2.0 * (0.0 + v + v)) == 0.5 * x
    ensures (0.0 + v * x + v * x) / (0.0 + v + v) == x
  {
  }

  // ---------------------------------------------------------------------------------------------
  // 2. The instance is forgotten when another object follows it

  /** The symbol geometry of the last geometry instance among the objects, wherever it stands. */
  function LastInstanceSeen(objs: GeometryElement): Option<GeometryElement>
    decreases |objs|
  {
    if objs == [] then None
    else if objs[|objs| - 1].InstanceObject? then Some(objs[|objs| - 1].symbolGeometry)
    else LastInstanceSeen(objs[..|objs| - 1])
  }

  /** Object k is a geometry instance and no object after it is one. */
  predicate IsLastInstanceAt(objs: GeometryElement, k: int) {
    0 <= k < |objs| && objs[k].InstanceObject? &&
    forall j :: k < j < |objs| ==> !objs[j].InstanceObject?
  }

  /**
    LastInstanceSeen finds nothing iff no object is a geometry instance, and otherwise the symbol
    geometry of the last geometry instance among the objects.
   */
  lemma {:induction false} LastInstanceSeenIsLastInstance(objs: GeometryElement)
    ensures LastInstanceSeen(objs).None? <==> forall k :: 0 <= k < |objs| ==> !objs[k].InstanceObject?
    ensures forall k :: IsLastInstanceAt(objs, k) ==> LastInstanceSeen(objs) == Some(objs[k].symbolGeometry)
    decreases |objs|
  {
    if objs != [] {
      var n := |objs| - 1;
      var init := objs[..n];
      if objs[n].InstanceObject? {
        assert LastInstanceSeen(objs) == Some(objs[n].symbolGeometry);
        var last := objs[n];
        forall k | IsLastInstanceAt(objs, k) ensures k == n {
          assert k < n ==> !last.InstanceObject?;
        }
      } else {
        assert LastInstanceSeen(objs) == LastInstanceSeen(init);
        LastInstanceSeenIsLastInstance(init);
        assert forall k :: 0 <= k < n ==> init[k] == objs[k];
        forall k | IsLastInstanceAt(objs, k) ensures IsLastInstanceAt(init, k) {
          assert k != n;
        }
      }
    }
  }

  /** The list `a` with the fallback taken from the last instance seen during the direct pass. */
  function CollectedSolidsIntended(objs: GeometryElement): (r: seq<Solid>)
    ensures forall k :: 0 <= k < |r| ==> Eligible(r[k])
  {
    var direct := Contributors(objs);
    if |direct| == 0 && LastInstanceSeen(objs).Some? then Contributors(LastInstanceSeen(objs).value)
    else direct
  }

  /**
    Both selections agree when the element holds no geometry instance or ends with one, which
    is the case the code as written handles.
   */
  lemma {:induction false} IntendedAgreesWhenInstanceLast(objs: GeometryElement)
    requires (forall k :: 0 <= k < |objs| ==> !objs[k].InstanceObject?) ||
      (|objs| > 0 && objs[|objs| - 1].InstanceObject?)
    ensures CollectedSolidsIntended(objs) == CollectedSolids(objs)
  {
    LastInstanceSeenIsLastInstance(objs);
  }

  /**
    A geometry instance carrying an eligible solid, followed by any other object: as written
    nothing is collected and the element's result is null; the intended selection finds the solid.
   */
  lemma {:induction false} InstanceNotLastLosesFallback(s: Solid)
    requires Eligible(s)
    ensures CollectedSolids([InstanceObject([SolidObject(s)]), OtherObject]) == []
    ensures ElementMeasure(Element(Some([InstanceObject([SolidObject(s)]), OtherObject]))).None?
    ensures CollectedSolidsIntended([InstanceObject([SolidObject(s)]), OtherObject]) == [s]
  {
    var inst, other := InstanceObject([SolidObject(s)]), OtherObject;
    var objs := [inst, other];
    assert objs == [inst] + [other];
    ContributorsOfConcatenation([inst], [other]);
    ContributorsOfOne(inst);
    ContributorsOfOne(other);
    ContributorsOfOne(SolidObject(s));
    assert objs[..1] == [inst];
    assert LastInstanceSeen(objs) == Some([SolidObject(s)]);
  }

  // ---------------------------------------------------------------------------------------------
  // The element result with both corrections

  /** GetCentroid(Element, Options) as its comments describe it. */
  function ElementMeasureIntended(e: Element): Option<Measure> {
    if e.geometry.None? then None
    else
      var solids := CollectedSolidsIntended(e.geometry.value);
      if |solids| == 0 then None else Some(CombineWeighted(Measures(solids)))
  }

  /**
    With both corrections the element's result for solids of non-zero volume is the result of
    the per-solid integrator for all the collected tessellations taken together.
   */
  lemma {:induction false} ElementMeasureIntendedIsUnion(e: Element)
    requires e.geometry.Some? && |CollectedSolidsIntended(e.geometry.value)| > 0
    requires var solids := CollectedSolidsIntended(e.geometry.value);
      forall k :: 0 <= k < |solids| ==> RawVolume(solids[k].tessellation.value) != 0.0
    ensures ElementMeasureIntended(e) == Some(SolidMeasure(UnionOf(CollectedSolidsIntended(e.geometry.value))))
  {
    CombineWeightedIsUnionMeasure(CollectedSolidsIntended(e.geometry.value));
  }
}
