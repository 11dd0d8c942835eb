/**
  The per-element aggregator: GetCentroid(Element, Options) of the command.

  It collects the per-solid results of the element's own geometry objects, falls back once to the
  symbol geometry of a geometry instance when that collected nothing, and combines the results as
  (sum of v_i * c_i) / (count * sum of v_i) for the centroid and sum of v_i for the volume.
 */
module ElementCentroid {
  import opened Wrappers
  import opened Geometry
  import opened Tessellation
  import opened SolidCentroid

  /** A GeometryObject of the element's geometry: a Solid, a GeometryInstance, or anything else. */
  datatype GeometryObject =
    | SolidObject(solid: Solid)
    | InstanceObject(symbolGeometry: seq<GeometryObject>)
    | OtherObject

  /** A GeometryElement: the geometry objects in the order the host enumerates them. */
  type GeometryElement = seq<GeometryObject>

  /**
    An element as the command uses it: the result of e.get_Geometry(opt), already with the
    identity transform applied for a family instance; None when the host returns null.
   */
  datatype Element = Element(geometry: Option<GeometryElement>)

  /** The condition of the `if`: faces, valid for tessellation, and a non-null per-solid result. */
  predicate Eligible(s: Solid) {
    0 < s.faceCount && s.validForTessellation && s.tessellation.Some?
  }

  /** The solids one `foreach` pass over `objs` adds to the list, in input order. */
  function Contributors(objs: GeometryElement): (r: seq<Solid>)
    ensures |r| <= |objs|
    ensures forall k :: 0 <= k < |r| ==> Eligible(r[k])
    decreases |objs|
  {
    if objs == [] then []
    else
      var rest := Contributors(objs[..|objs| - 1]);
      var last := objs[|objs| - 1];
      if last.SolidObject? && Eligible(last.solid) then rest + [last.solid] else rest
  }

  /** The value of `inst` after the first pass: decided by the last object alone. */
  function LastInstance(objs: GeometryElement): Option<GeometryElement> {
    if objs != [] && objs[|objs| - 1].InstanceObject? then Some(objs[|objs| - 1].symbolGeometry)
    else None
  }

  /** The list `a` after both passes. */
  function CollectedSolids(objs: GeometryElement): (r: seq<Solid>)
    ensures forall k :: 0 <= k < |r| ==> Eligible(r[k])
  {
    var direct := Contributors(objs);
    if |direct| == 0 && LastInstance(objs).Some? then Contributors(LastInstance(objs).value)
    else direct
  }

  /** The per-solid results of a sequence of tessellated solids. */
  function Measures(solids: seq<Solid>): (r: seq<Measure>)
    requires forall k :: 0 <= k < |solids| ==> solids[k].tessellation.Some?
    ensures |r| == |solids|
    ensures forall k :: 0 <= k < |solids| ==> r[k] == SolidMeasure(solids[k].tessellation.value)
  {
    seq(|solids|, k requires 0 <= k < |solids| && solids[k].tessellation.Some? =>
      SolidMeasure(solids[k].tessellation.value))
  }

  /** The running sum of cv2.Volume * cv2.Centroid over the list, first to last. */
  function WeightedCentroidSum(ms: seq<Measure>): DoubleXYZ
    decreases |ms|
  {
    if ms == [] then Finite(Zero)
    else
      var m := ms[|ms| - 1];
      WeightedCentroidSum(ms[..|ms| - 1]).Plus(m.centroid.Times(m.volume))
  }

  /** The running sum of cv2.Volume over the list. */
  function TotalVolume(ms: seq<Measure>): real
    decreases |ms|
  {
    if ms == [] then 0.0 else TotalVolume(ms[..|ms| - 1]) + ms[|ms| - 1].volume
  }

  /** The running sums after one more list entry. */
  lemma {:induction false} CombineStep(ms: seq<Measure>, k: nat)
    requires k < |ms|
    ensures WeightedCentroidSum(ms[..k + 1]) == WeightedCentroidSum(ms[..k]).Plus(ms[k].centroid.Times(ms[k].volume))
    ensures TotalVolume(ms[..k + 1]) == TotalVolume(ms[..k]) + ms[k].volume
  {
    assert ms[..k + 1][..k] == ms[..k];
  }

  /** The divisor of the final division: the number of list entries times the total volume. */
  function CombineDivisor(ms: seq<Measure>): real {
    (|ms| as real) * TotalVolume(ms)
  }

  /** The combination as written: the weighted sum divided by the count times the total volume. */
  function Combine(ms: seq<Measure>): Measure {
    Measure(WeightedCentroidSum(ms).DividedBy(CombineDivisor(ms)), TotalVolume(ms))
  }

  /** What GetCentroid(Element, Options) returns, as a value; None stands for null. */
  function ElementMeasure(e: Element): Option<Measure> {
    if e.geometry.None? then None
    else
      var solids := CollectedSolids(e.geometry.value);
      if |solids| == 0 then None else Some(Combine(Measures(solids)))
  }

  /** The accumulators in the list `a` hold the values `ms`, one for one. */
  ghost predicate HoldValues(a: seq<CentroidVolume>, ms: seq<Measure>)
    reads set j | 0 <= j < |a| :: a[j]
  {
    |a| == |ms| && forall j :: 0 <= j < |a| ==> a[j].Value() == ms[j]
  }

  /**
    The closing loop of GetCentroid(Element, Options): sum v_i * c_i and v_i over the list, then
    divide the centroid sum by the count times the volume sum. `ms` names the values the list's
    accumulators hold.
   */
  method CombineList(a: seq<CentroidVolume>, ghost ms: seq<Measure>) returns (cv: CentroidVolume)
    requires 0 < |a| && HoldValues(a, ms)
    ensures fresh(cv)
    ensures cv.Value() == Combine(ms)
  {
    cv := new CentroidVolume();
    assert forall j :: 0 <= j < |a| ==> a[j] != cv;
    for k := 0 to |a|
      modifies cv
      invariant forall j :: 0 <= j < |a| ==> a[j] != cv && a[j].Value() == ms[j]
      invariant cv.centroid == WeightedCentroidSum(ms[..k])
      invariant cv.volume == TotalVolume(ms[..k])
    {
      CombineStep(ms, k);
      AddWeighted(cv, a[k], ms[k]);
    }
    assert ms[..|a|] == ms;
    DivideByCountAndVolume(cv, ms, |a|);
  }

  /** The body of the closing loop: cv.Centroid += cv2.Volume * cv2.Centroid and cv.Volume += cv2.Volume. */
  method AddWeighted(cv: CentroidVolume, cv2: CentroidVolume, ghost m: Measure)
    requires cv2 != cv && cv2.Value() == m
    modifies cv
    ensures cv.centroid == old(cv.centroid).Plus(m.centroid.Times(m.volume))
    ensures cv.volume == old(cv.volume) + m.volume
  {
    cv.centroid := cv.centroid.Plus(cv2.centroid.Times(cv2.volume));
    cv.volume := cv.volume + cv2.volume;
  }

  /** The last statement of GetCentroid(Element, Options): cv.Centroid /= a.Count * cv.Volume. */
  method DivideByCountAndVolume(cv: CentroidVolume, ghost ms: seq<Measure>, count: nat)
    requires cv.centroid == WeightedCentroidSum(ms) && cv.volume == TotalVolume(ms) && count == |ms|
    modifies cv
    ensures cv.Value() == Combine(ms)
  {
    assert CombineDivisor(ms) == (count as real) * cv.volume;
    cv.centroid := cv.centroid.DividedBy((count as real) * cv.volume);
  }

  /** The list after one more per-solid result. */
  lemma HoldValuesAppend(a: seq<CentroidVolume>, ms: seq<Measure>, cv1: CentroidVolume)
    requires HoldValues(a, ms)
    ensures HoldValues(a + [cv1], ms + [cv1.Value()])
  {
  }

  /** The per-solid results of solids listed one after another. */
  lemma MeasuresAppend(solids: seq<Solid>, s: Solid)
    requires forall k :: 0 <= k < |solids| ==> solids[k].tessellation.Some?
    requires s.tessellation.Some?
    ensures Measures(solids + [s]) == Measures(solids) + [SolidMeasure(s.tessellation.value)]
  {
  }

  /** One pass over the objects `objs[..k + 1]` collects what the pass over `objs[..k]` did, and object k if eligible. */
  lemma ContributorsStep(objs: GeometryElement, k: nat)
    requires k < |objs|
    ensures Contributors(objs[..k + 1]) ==
      if objs[k].SolidObject? && Eligible(objs[k].solid) then Contributors(objs[..k]) + [objs[k].solid]
      else Contributors(objs[..k])
  {
    assert objs[..k + 1][..k] == objs[..k];
  }

  /** The per-solid results of one pass over `objs[..k + 1]`: those over `objs[..k]`, and object k's if eligible. */
  lemma MeasuresStep(objs: GeometryElement, k: nat)
    requires k < |objs|
    ensures Measures(Contributors(objs[..k + 1])) ==
      if objs[k].SolidObject? && Eligible(objs[k].solid)
      then Measures(Contributors(objs[..k])) + [SolidMeasure(objs[k].solid.tessellation.value)]
      else Measures(Contributors(objs[..k]))
  {
    ContributorsStep(objs, k);
    if objs[k].SolidObject? && Eligible(objs[k].solid) {
      MeasuresAppend(Contributors(objs[..k]), objs[k].solid);
    }
  }

  /**
    The `if` in the body of both `foreach` loops: a solid with faces that is valid for
    tessellation is integrated, and a non-null result is appended to the list.
   */
  method AddIfEligible(obj: GeometryObject, a: seq<CentroidVolume>, ghost ms: seq<Measure>)
    returns (a': seq<CentroidVolume>, ghost ms': seq<Measure>)
    requires HoldValues(a, ms)
    ensures HoldValues(a', ms')
    ensures ms' == if obj.SolidObject? && Eligible(obj.solid) then ms + [SolidMeasure(obj.solid.tessellation.value)] else ms
  {
    a', ms' := a, ms;
    if obj.SolidObject? && 0 < obj.solid.faceCount && obj.solid.validForTessellation {
      var cv1, centroidAssert, volumeAssert := GetSolidCentroid(obj.solid);
      if cv1 != null {
        HoldValuesAppend(a, ms, cv1);
        a', ms' := a + [cv1], ms + [cv1.Value()];
      }
    }
  }

  /**
    The first `foreach` of GetCentroid(Element, Options): the per-solid results of the element's
    own geometry objects, and `inst` as the loop leaves it.
   */
  method CollectFromElement(objs: GeometryElement)
    returns (a: seq<CentroidVolume>, ghost ms: seq<Measure>, inst: Option<GeometryElement>)
    ensures HoldValues(a, ms) && ms == Measures(Contributors(objs))
    ensures inst == LastInstance(objs)
  {
    a, ms, inst := [], [], None;
    for k := 0 to |objs|
      invariant HoldValues(a, ms) && ms == Measures(Contributors(objs[..k]))
      invariant inst == LastInstance(objs[..k])
    {
      var obj := objs[k];
      MeasuresStep(objs, k);
      a, ms := AddIfEligible(obj, a, ms);
      inst := if obj.InstanceObject? then Some(obj.symbolGeometry) else None;
    }
    assert objs[..|objs|] == objs;
  }

  /**
    The second `foreach` of GetCentroid(Element, Options), entered with an empty list: the
    per-solid results of the instance's symbol geometry.
   */
  method CollectFromSymbol(symbol: GeometryElement, a: seq<CentroidVolume>, ghost ms: seq<Measure>)
    returns (a': seq<CentroidVolume>, ghost ms': seq<Measure>)
    requires HoldValues(a, ms) && ms == []
    ensures HoldValues(a', ms') && ms' == Measures(Contributors(symbol))
  {
    a', ms' := a, ms;
    for k := 0 to |symbol|
      invariant HoldValues(a', ms') && ms' == Measures(Contributors(symbol[..k]))
    {
      var obj := symbol[k];
      MeasuresStep(symbol, k);
      a', ms' := AddIfEligible(obj, a', ms');
    }
    assert symbol[..|symbol|] == symbol;
  }

  /** GetCentroid(Element, Options). */
  method GetElementCentroid(e: Element) returns (cv: CentroidVolume?)
    ensures cv == null <==> ElementMeasure(e).None?
    ensures cv != null ==> fresh(cv) && cv.Value() == ElementMeasure(e).value
  {
    cv := null;
    var geo := e.geometry;
    if geo.Some? {
      var objs := geo.value;
      var a, ms, inst := CollectFromElement(objs);
      if |a| == 0 && inst.Some? {
        a, ms := CollectFromSymbol(inst.value, a, ms);
      }
      assert ms == Measures(CollectedSolids(objs));
      if 0 < |a| {
        cv := CombineList(a, ms);
      }
    }
  }

  // ---------------------------------------------------------------------------------------------
  // Selection of the contributing solids

  /**
    A solid is in the list of one pass iff it is one of the pass's objects and it has faces, is
    valid for tessellation and tessellates.
   */
  lemma {:induction false} ContributorsMembership(objs: GeometryElement, s: Solid)
    ensures s in Contributors(objs) <==> SolidObject(s) in objs && Eligible(s)
    decreases |objs|
  {
    if objs != [] {
      var init := objs[..|objs| - 1];
      ContributorsMembership(init, s);
      assert objs == init + [objs[|objs| - 1]];
    }
  }

  /** One pass over two runs of objects lists the first run's solids, then the second's. */
  lemma {:induction false} ContributorsOfConcatenation(a: GeometryElement, b: GeometryElement)
    ensures Contributors(a + b) == Contributors(a) + Contributors(b)
    decreases |b|
  {
    if b == [] {
      assert a + b == a;
    } else {
      var b' := b[..|b| - 1];
      assert (a + b)[..|a + b| - 1] == a + b';
      assert (a + b)[|a + b| - 1] == b[|b| - 1];
      ContributorsOfConcatenation(a, b');
    }
  }

  /** What one object adds to the list: its solid when eligible, otherwise nothing. */
  lemma {:induction false} ContributorsOfOne(obj: GeometryObject)
    ensures Contributors([obj]) == if obj.SolidObject? && Eligible(obj.solid) then [obj.solid] else []
  {
    assert [obj][..0] == [];
  }

  /** No object of the pass is a solid with faces, valid for tessellation and tessellating. */
  predicate NoEligibleSolid(objs: GeometryElement) {
    forall k :: 0 <= k < |objs| ==> !(objs[k].SolidObject? && Eligible(objs[k].solid))
  }

  /** A pass collects nothing iff none of its objects is an eligible solid. */
  lemma {:induction false} NoContributorsIff(objs: GeometryElement)
    ensures |Contributors(objs)| == 0 <==> NoEligibleSolid(objs)
  {
    if |Contributors(objs)| != 0 {
      ContributorsMembership(objs, Contributors(objs)[0]);
    }
    if !NoEligibleSolid(objs) {
      var k :| 0 <= k < |objs| && objs[k].SolidObject? && Eligible(objs[k].solid);
      ContributorsMembership(objs, objs[k].solid);
    }
  }

  /**
    The fallback rule: a non-empty direct pass is the result; otherwise the symbol geometry is used
    exactly when the last direct object is a geometry instance, whatever came before it.
   */
  lemma {:induction false} FallbackRule(objs: GeometryElement)
    ensures |Contributors(objs)| > 0 ==> CollectedSolids(objs) == Contributors(objs)
    ensures |objs| == 0 || !objs[|objs| - 1].InstanceObject? ==> CollectedSolids(objs) == Contributors(objs)
    ensures |Contributors(objs)| == 0 && |objs| > 0 && objs[|objs| - 1].InstanceObject? ==>
      CollectedSolids(objs) == Contributors(objs[|objs| - 1].symbolGeometry)
  {
  }

  /**
    The fallback does not nest: every collected solid is an eligible solid that is either one of
    the element's own objects or one of the objects of the last object's symbol geometry; a
    solid inside an instance inside the symbol geometry, or inside an earlier instance, never is.
   */
  lemma {:induction false} CollectedSolidsOrigin(objs: GeometryElement, s: Solid)
    requires s in CollectedSolids(objs)
    ensures Eligible(s)
    ensures SolidObject(s) in objs ||
      (|objs| > 0 && objs[|objs| - 1].InstanceObject? && SolidObject(s) in objs[|objs| - 1].symbolGeometry)
  {
    if |Contributors(objs)| == 0 && LastInstance(objs).Some? {
      ContributorsMembership(objs[|objs| - 1].symbolGeometry, s);
    } else {
      ContributorsMembership(objs, s);
    }
  }

  /**
    The element's result is null iff its geometry is null, or none of its own objects is an
    eligible solid and either the last object is no geometry instance or none of that instance's
    symbol objects is an eligible solid.
   */
  lemma {:induction false} ElementNullIff(e: Element)
    ensures ElementMeasure(e).None? <==>
      e.geometry.None? ||
      (NoEligibleSolid(e.geometry.value) &&
       (|e.geometry.value| == 0 || !e.geometry.value[|e.geometry.value| - 1].InstanceObject? ||
        NoEligibleSolid(e.geometry.value[|e.geometry.value| - 1].symbolGeometry)))
  {
    if e.geometry.Some? {
      var objs := e.geometry.value;
      NoContributorsIff(objs);
      if |objs| > 0 && objs[|objs| - 1].InstanceObject? {
        NoContributorsIff(objs[|objs| - 1].symbolGeometry);
      }
    }
  }

  // ---------------------------------------------------------------------------------------------
  // Combination

  /** The tessellation made of all components of all the given solids, in list order. */
  function UnionOf(solids: seq<Solid>): TriangulatedSolidOrShell
    requires forall k :: 0 <= k < |solids| ==> solids[k].tessellation.Some?
    decreases |solids|
  {
    if solids == [] then TriangulatedSolidOrShell([])
    else Union(UnionOf(solids[..|solids| - 1]), solids[|solids| - 1].tessellation.value)
  }

  /** The combined volume is the volume of all the solids' tessellations taken together. */
  lemma {:induction false} TotalVolumeIsUnionVolume(solids: seq<Solid>)
    requires forall k :: 0 <= k < |solids| ==> solids[k].tessellation.Some?
    ensures 6.0 * TotalVolume(Measures(solids)) == RawVolume(UnionOf(solids))
    decreases |solids|
  {
    if solids != [] {
      var init := solids[..|solids| - 1];
      assert Measures(solids)[..|solids| - 1] == Measures(init);
      TotalVolumeIsUnionVolume(init);
      RawSumsOfUnion(UnionOf(init), solids[|solids| - 1].tessellation.value);
    } else {
      assert AllTriangles(UnionOf(solids)) == [];
    }
  }

  /** The weighted centroid sum is finite iff every entry's centroid is. */
  lemma {:induction false} WeightedSumFinite(ms: seq<Measure>)
    ensures WeightedCentroidSum(ms).Finite? <==> forall k :: 0 <= k < |ms| ==> ms[k].centroid.Finite?
    decreases |ms|
  {
    if ms != [] {
      var init := ms[..|ms| - 1];
      WeightedSumFinite(init);
      assert forall k :: 0 <= k < |init| ==> init[k] == ms[k];
    }
  }

  /**
    The combined centroid is finite iff every entry's centroid is finite and the list is non-empty
    with a non-zero total volume; then count * total volume * centroid is the weighted sum.
   */
  lemma {:induction false} CombineCentroid(ms: seq<Measure>)
    ensures Combine(ms).centroid.Finite? <==>
      (forall k :: 0 <= k < |ms| ==> ms[k].centroid.Finite?) && |ms| > 0 && TotalVolume(ms) != 0.0
    ensures Combine(ms).centroid.Finite? ==>
      Scale(CombineDivisor(ms), Combine(ms).centroid.value) == WeightedCentroidSum(ms).value
  {
    WeightedSumFinite(ms);
    assert CombineDivisor(ms) != 0.0 <==> |ms| > 0 && TotalVolume(ms) != 0.0;
  }

  /** A single entry with a non-zero volume (or a non-finite centroid) is returned unchanged. */
  lemma CombineSingle(m: Measure)
    requires m.volume != 0.0 || m.centroid.NonFinite?
    ensures Combine([m]) == m
  {
    assert [m][..0] == [];
    assert TotalVolume([m]) == m.volume;
    if m.centroid.Finite? {
      var c, v := m.centroid.value, m.volume;
      assert WeightedCentroidSum([m]) == Finite(Add(Zero, Scale(v, c)));
      var r := Div(Add(Zero, Scale(v, c)), 1.0 * v);
      assert r.x == c.x && r.y == c.y && r.z == c.z;
    }
  }

  /** An element with exactly one contributing solid returns that solid's own result. */
  lemma {:induction false} ElementOfOneSolid(e: Element)
    requires e.geometry.Some? && |CollectedSolids(e.geometry.value)| == 1
    ensures ElementMeasure(e) == Some(SolidMeasure(CollectedSolids(e.geometry.value)[0].tessellation.value))
  {
    var solids := CollectedSolids(e.geometry.value);
    var m := SolidMeasure(solids[0].tessellation.value);
    assert Measures(solids) == [m];
    CombineSingle(m);
  }

  /**
    One contributing solid of zero raw volume (a flat or open tessellation summing to zero) makes
    the element's centroid non-finite, whatever the other solids are.
   */
  lemma {:induction false} DegenerateSolidPoisons(e: Element, k: nat)
    requires e.geometry.Some? && k < |CollectedSolids(e.geometry.value)|
    requires RawVolume(CollectedSolids(e.geometry.value)[k].tessellation.value) == 0.0
    ensures ElementMeasure(e).Some? && ElementMeasure(e).value.centroid.NonFinite?
  {
    var ms := Measures(CollectedSolids(e.geometry.value));
    assert ms[k].centroid.NonFinite?;
    CombineCentroid(ms);
  }
}
