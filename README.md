# GetCentroid in Dafny

A model of the centroid and volume computation of the GetCentroid Revit add-in, with proofs.
All of it lives in `GetCentroid/Command.cs`:

- **Per-solid integrator**, `GetCentroid(Solid)`.
  - It tessellates a solid into shell components of triangles.
  - For each triangle `(v0, v1, v2)` it adds the signed-tetrahedron term `v = v0 . (v1 x v2)` to `cv.Volume`, and `v * (v0 + v1 + v2)` to `cv.Centroid`.
  - It then divides the centroid by `4 * Volume` and, after that, the volume by `6`.
  - It returns null when tessellation throws Revit's `InvalidOperationException`; any other exception propagates.
- **Per-element aggregator**, `GetCentroid(Element, Options)`.
  - It collects the per-solid results of the element's geometry objects, keeping only a solid with faces that is valid for tessellation and whose result is non-null.
  - When that collects nothing, it falls back once to the symbol geometry of the geometry instance that `inst` holds.
  - It combines the results as `(sum v_i c_i) / (count * sum v_i)` for the centroid and `sum v_i` for the volume.
- **`CentroidVolume`**, the mutable accumulator with a `Centroid` and a `Volume` property.
- **`f()`**, the commented-out reference routine. It runs the same integration over parallel vertex arrays and a two-dimensional face array.

Modules, one per file:

| file | module | contents |
|---|---|---|
| `wrappers.dfy` | `Wrappers` | `Option` |
| `geometry.dfy` | `Geometry` | Revit's `XYZ` over `real`; `DoubleXYZ`, an `XYZ` that may hold NaN or infinite coordinates |
| `integrator.dfy` | `Integrator` | the per-triangle terms and their left-to-right sums |
| `tessellation.dfy` | `Tessellation` | `TriangulatedSolidOrShell`, the raw sums, winding reversal, visiting order |
| `solid_centroid.dfy` | `SolidCentroid` | the `CentroidVolume` class, finalisation, `GetSolidCentroid` |
| `reference_routine.dfy` | `ReferenceRoutine` | `f()` over arrays, proved to give the per-solid result |
| `element_centroid.dfy` | `ElementCentroid` | solid selection, fallback, combination, `GetElementCentroid` |
| `findings.dfy` | `Findings` | the two defects below and their corrected definitions |

Modelling choices:

- **Doubles.** Doubles are `real`. Over the reals every operation the code uses is exact except a division by zero.
- **Division by zero.** `DoubleXYZ.DividedBy` yields `NonFinite` when the divisor is zero. `NonFinite` then propagates through `+` and scalar `*`, as NaN and infinity do. So a zero raw volume is modelled as IEEE double arithmetic behaves, not excluded by a precondition.
- **Imperative parts.** These are imperative Dafny:
  - the nested loops and in-place `/=` of the per-solid integrator;
  - the list appends and `inst` updates of the element aggregator;
  - the array loop of `f()`.

  Each method is proved against a function of its inputs: `SolidMeasure`, `ElementMeasure` or `Combine`. The lemmas state the properties of those functions.
- **Host APIs are inputs.**
  - A `Solid` carries its face count and its `IsValidForTessellation` flag.
  - It also carries its tessellation as an `Option`: `None` when `TessellateSolidOrShell` throws `InvalidOperationException`.
  - It carries the two reference values that `ComputeCentroid()` and `solid.Volume` return.
  - An `Element` carries the result of `get_Geometry(opt)`, or `None` for null. For a family instance that is the result after `GetTransformed(Transform.Identity)`; for any other element it is the geometry as returned.
  - A geometry instance carries the result of `GetSymbolGeometry()`.
- **`Debug.Assert` checks.** The two checks in `GetCentroid(Solid)` are returned as booleans. They are computed at the points where the code evaluates them, and they change nothing.
- **The `inst` fallback.** A prose description of the fallback could suggest that any geometry instance seen during the direct pass is kept. The code assigns `inst = obj as GeometryInstance` for every object, so only the last object decides. The model follows the code, and `Findings` records the difference.

## Model

| member | source | states |
|---|---|---|
| Geometry.Div | GetCentroid/Command.cs:185 | `XYZ / double` for a non-zero divisor: multiplying the quotient back by the divisor gives the dividend |
| Geometry.DoubleXYZ.DividedBy | GetCentroid/Command.cs:185 | `XYZ / double` is finite iff the point is finite and the divisor non-zero, and is then the exact quotient |
| Geometry.NonFiniteAbsorbs | GetCentroid/Command.cs:289-294 | a NaN/infinite point stays non-finite through `+` on either side, scalar `*` and `/`; `+` is independent of operand order |
| Integrator.SignedVolumeTerm | GetCentroid/Command.cs:174-176 | the coordinate formula of the code equals the scalar triple product `v0 . (v1 x v2)` |
| Integrator.SwapNegatesTerm | GetCentroid/Command.cs:174-176 | exchanging any two vertices negates the term |
| Integrator.RotationKeepsTerm | GetCentroid/Command.cs:174-176 | rotating the vertices keeps the term |
| Integrator.ZeroVertexTerm | GetCentroid/Command.cs:174-176 | a triangle with a vertex at the origin contributes 0 |
| Integrator.CoplanarWithOriginTerm | GetCentroid/Command.cs:174-176 | a triangle whose vertices are linearly dependent (its plane contains the origin) contributes 0 (some combination with a non-zero coefficient is the origin); this covers a vertex at the origin, two vertices on one line through the origin, and all three on one plane through it |
| Integrator.SumsAppendOne | GetCentroid/Command.cs:178-179 | one more triangle adds its volume term to the volume sum and its centroid term to the centroid sum |
| Integrator.SumsOfConcatenation | GetCentroid/Command.cs:158-181 | both sums over two runs of triangles are the sums of the two runs |
| Integrator.ReversedTerms | GetCentroid/Command.cs:174-178 | reversing a triangle's winding negates both of its terms |
| Integrator.ReversedWindingSums | GetCentroid/Command.cs:158-181 | reversing every triangle's winding negates both sums |
| Tessellation.OneComponentSums | GetCentroid/Command.cs:156-181 | a one-component tessellation sums exactly that component's triangles |
| Tessellation.TrianglesOfConcatenation | GetCentroid/Command.cs:158-161 | the triangles of two runs of components are those of the first run, then those of the second |
| Tessellation.RawSumsOfUnion | GetCentroid/Command.cs:158-181 | the raw sums of two tessellations taken together are the sums of their raw sums |
| Tessellation.ReverseWindingNegatesRawSums | GetCentroid/Command.cs:158-181 | reversing the winding of every triangle negates both raw sums |
| Tessellation.VisitsOfEnumerateTriangles | GetCentroid/Command.cs:156-172 | the nested loops visit each (component, triangle) pair exactly once, in lexicographic order; the k-th triangle summed is the one at the k-th visit |
| SolidCentroid.CentroidVolume.constructor | GetCentroid/Command.cs:21-25 | a new accumulator holds `XYZ.Zero` and `0.0` |
| SolidCentroid.Finalize | GetCentroid/Command.cs:183-197 | the returned volume is raw/6; the centroid is finite iff raw != 0, and then `4 * raw * centroid` is the raw centroid sum |
| SolidCentroid.FinalizeOrder | GetCentroid/Command.cs:183-197 | for a non-zero raw volume, the centroid divisor is 24 times the returned volume; dividing by 4 times the returned volume instead gives six times the centroid |
| SolidCentroid.SingleTriangleRawSums | GetCentroid/Command.cs:158-181 | a single-triangle tessellation has exactly that triangle's terms as raw sums |
| SolidCentroid.SingleTriangleIsTetrahedron | GetCentroid/Command.cs:131-207 | for one triangle the result is the tetrahedron with the origin: volume `v0 . (v1 x v2) / 6`, centroid `(v0 + v1 + v2) / 4` when that volume is non-zero |
| SolidCentroid.FinalizeNegated | GetCentroid/Command.cs:183-197 | negating both raw sums negates the volume and keeps the centroid |
| SolidCentroid.ReverseWindingFinalized | GetCentroid/Command.cs:131-207 | reversing the winding of every triangle negates the returned volume and leaves the centroid unchanged |
| SolidCentroid.AccumulateComponent | GetCentroid/Command.cs:160-180 | the inner loop leaves the accumulator at the sums over the triangles summed before, followed by this component's triangles in order |
| SolidCentroid.GetSolidCentroid | GetCentroid/Command.cs:131-207 | null iff tessellation throws `InvalidOperationException`, with no accumulation; otherwise a fresh accumulator holding `SolidMeasure` of the tessellation; the two check flags are the two `Debug.Assert` conditions on the finished values |
| ReferenceRoutine.FaceRows | GetCentroid/Command.cs:107-114 | when every face row names vertices within range, row i of the face array is the index triple of face i |
| ReferenceRoutine.AsComponentTriangle | GetCentroid/Command.cs:112-114 | for a face index below the face count, with every row naming vertices within range, face i of the arrays is the triangle of the three vertices its row names |
| ReferenceRoutine.AddScaledVertexSum | GetCentroid/Command.cs:117-119 | adding `v * (p1 + p2 + p3)` to the point `(cx, cy, cz)` is `f()`'s per-coordinate update `c += (x1 + x2 + x3) * v` |
| ReferenceRoutine.AddFace | GetCentroid/Command.cs:115-119 | one face adds its volume term to `volume` and its centroid term to `(cx, cy, cz)` |
| ReferenceRoutine.AddRow | GetCentroid/Command.cs:111-121 | one pass of the loop takes the sums over faces `0..i-1` to the sums over faces `0..i` |
| ReferenceRoutine.ReferenceCentroid | GetCentroid/Command.cs:100-128 | `f()` returns exactly the result of `GetCentroid(Solid)` for the one-component tessellation the arrays describe |
| ElementCentroid.Contributors | GetCentroid/Command.cs:249-259 | a pass lists at most one solid per object, and only eligible ones |
| ElementCentroid.CollectedSolids | GetCentroid/Command.cs:249-279 | every collected solid is eligible |
| ElementCentroid.AddIfEligible | GetCentroid/Command.cs:251-259 | an eligible solid appends its per-solid result to the list; any other object leaves the list as it was |
| ElementCentroid.CollectFromElement | GetCentroid/Command.cs:249-261 | the direct pass lists the results of the eligible solids in input order; `inst` ends as the last object's instance, or null |
| ElementCentroid.CollectFromSymbol | GetCentroid/Command.cs:263-279 | the fallback pass lists the results of the eligible solids of the symbol geometry, in order |
| ElementCentroid.AddWeighted | GetCentroid/Command.cs:289-293 | one step of the combining loop, reading an accumulator other than the one it updates, adds `volume * centroid` to the centroid and `volume` to the volume |
| ElementCentroid.DivideByCountAndVolume | GetCentroid/Command.cs:294 | the last division leaves the accumulator at `Combine` of the list |
| ElementCentroid.CombineList | GetCentroid/Command.cs:286-295 | for a non-empty list (the `0 < a.Count` guard), the combining loop and division return a fresh accumulator holding `Combine` of the list's values |
| ElementCentroid.GetElementCentroid | GetCentroid/Command.cs:220-298 | null iff `ElementMeasure` is None; otherwise a fresh accumulator holding `ElementMeasure` |
| ElementCentroid.ContributorsMembership | GetCentroid/Command.cs:249-259 | a solid is listed by a pass iff it is one of the pass's objects and is eligible |
| ElementCentroid.ContributorsOfConcatenation | GetCentroid/Command.cs:249-259 | a pass over two runs of objects lists the first run's solids, then the second's, in input order |
| ElementCentroid.ContributorsOfOne | GetCentroid/Command.cs:251-259 | one object contributes its solid if eligible, and nothing otherwise |
| ElementCentroid.NoContributorsIff | GetCentroid/Command.cs:249-263 | a pass collects nothing iff none of its objects is an eligible solid |
| ElementCentroid.FallbackRule | GetCentroid/Command.cs:245-279 | a non-empty direct pass is the result; otherwise the symbol geometry is used exactly when the last direct object is a geometry instance |
| ElementCentroid.CollectedSolidsOrigin | GetCentroid/Command.cs:245-279 | every collected solid is eligible and is a direct object or a direct object of the last object's symbol geometry; the fallback never nests |
| ElementCentroid.ElementNullIff | GetCentroid/Command.cs:224-298 | the result is null iff the geometry is null, or no direct object is eligible and there is no usable instance fallback |
| ElementCentroid.TotalVolumeIsUnionVolume | GetCentroid/Command.cs:289-293 | for solids that all have a tessellation, six times the combined volume is the raw volume of all those tessellations together |
| ElementCentroid.WeightedSumFinite | GetCentroid/Command.cs:289-293 | the weighted centroid sum is finite iff every entry's centroid is |
| ElementCentroid.CombineCentroid | GetCentroid/Command.cs:286-295 | the combined centroid is finite iff all entries are finite, the list is non-empty and the total volume is non-zero; then `count * total * centroid` is the weighted sum |
| ElementCentroid.CombineSingle | GetCentroid/Command.cs:286-295 | one entry with non-zero volume (or a non-finite centroid) is returned unchanged |
| ElementCentroid.ElementOfOneSolid | GetCentroid/Command.cs:220-298 | an element with exactly one contributing solid returns that solid's own result |
| ElementCentroid.DegenerateSolidPoisons | GetCentroid/Command.cs:286-295 | one contributing solid with zero raw volume makes the element's centroid non-finite |
| Findings.CombineIsWeightedOverCount | GetCentroid/Command.cs:281-294 | the combination as written is the volume-weighted mean divided once more by the number of entries |
| Findings.WeightedTermOfSolid | GetCentroid/Command.cs:291 | for a solid of non-zero raw volume, weighting its result by its volume gives back its raw centroid sum over 24 |
| Findings.WeightedSumIsUnionCentroid | GetCentroid/Command.cs:289-293 | for solids that all have a tessellation of non-zero raw volume, the weighted sum is the raw centroid sum of their union over 24 |
| Findings.CombineWeightedIsUnionMeasure | GetCentroid/Command.cs:281-294 | for solids of non-zero raw volume, the intended weighted mean equals the per-solid result of all the tessellations taken together |
| Findings.CombineTwiceTheSame | GetCentroid/Command.cs:286-295 | the same entry twice, with a finite centroid and non-zero volume: as written half its centroid, as intended its centroid |
| Findings.TwiceTheSameSolidHalvesCentroid | GetCentroid/Command.cs:220-298 | an element holding one eligible solid of non-zero raw volume twice returns half that solid's centroid; the weighted mean returns the centroid itself |
| Findings.LastInstanceSeenIsLastInstance | GetCentroid/Command.cs:245-261 | the intended `inst` is null iff no object is a geometry instance, and otherwise the last geometry instance's symbol geometry |
| Findings.IntendedAgreesWhenInstanceLast | GetCentroid/Command.cs:245-279 | the code's selection and the intended one agree when there is no instance or the last object is one |
| Findings.InstanceNotLastLosesFallback | GetCentroid/Command.cs:249-279 | an instance carrying an eligible solid, followed by any other object: as written the result is null, as intended the solid is found |
| Findings.ElementMeasureIntendedIsUnion | GetCentroid/Command.cs:209-219 | with both corrections, for a non-empty list of collected solids each of non-zero raw volume, an element's result is the per-solid result of all its collected tessellations together |

## Left out

- `Execute` (lines 300-365) is left out: element selection, `PickObjects`, `TaskDialog`, the view-type check and `Debug.Print` are user interface and host plumbing.
- `ElementDescription` (lines 66-98) is left out: it builds text from object-model properties that are not part of this model.
- `RealString`, `PointString` and `CentroidVolume.ToString` (lines 30-57) are left out: they depend on .NET's `"0.##"` formatting of doubles.
- The host APIs are inputs, not behaviour:
  - `SolidUtils.TessellateSolidOrShell`, `IsValidForTessellation`, `GetTransformed(Transform.Identity)`;
  - `GetSymbolGeometry`, `ComputeCentroid` and `solid.Volume`.
- `LevelOfDetail = 0` only configures the tessellation call, so it has no counterpart.
- Geometry.DoubleXYZ.DividedBy: a host exception from Revit's `XYZ / double` on a zero or near-zero divisor is not modelled; the division is read as IEEE double arithmetic, giving NaN or infinity.
- ElementCentroid.DegenerateSolidPoisons: states the IEEE reading; if the host instead throws on the near-zero divisor at lines 185 or 294, the element call fails rather than returning a non-finite centroid, and that outcome is not modelled.
- Exceptions other than `InvalidOperationException` from `TessellateSolidOrShell` propagate out of both `GetCentroid` overloads in the code; the model has no such outcome.
- IEEE-754 rounding is not modelled. Arithmetic is exact over `real`. NaN and infinity are collapsed into one `NonFinite` value for a whole point.
- The `Debug.Assert` conditions are returned as booleans. Nothing models a failing assertion's dialog, and the square root of `GetLength()` is replaced by a comparison of squared lengths.
- Geometric theorems about closed meshes are not stated: that the raw sums give the enclosed volume and centroid, or that the result is translation invariant. The code neither checks nor relies on a closed surface.
- SolidCentroid.GetSolidCentroid: vertex indices are in range by the `ShellComponent` subset type. The host guarantees this; an out-of-range index would throw in `GetVertex`, and that case is not modelled.
- ReferenceRoutine.ReferenceCentroid: requires every face index to name a vertex. The routine would throw on any other index, and it handles no such case.
- `GetCentroid/Properties/AssemblyInfo.cs` is not part of this model: it holds assembly metadata only.

## Findings

| source | as written | input that shows it | evidently intended | confidence | as-written member | corrected member |
|---|---|---|---|---|---|---|
| GetCentroid/Command.cs:294 | the weighted centroid sum is divided by the number of list entries times the total volume | an element holding the same solid of non-zero volume twice: the result is half that solid's centroid | divide by the total volume only; the comment at lines 281-284 says only the weights are factored out, which gives the volume-weighted mean | high; not executed | ElementCentroid.Combine, Findings.TwiceTheSameSolidHalvesCentroid | Findings.CombineWeighted, Findings.CombineWeightedIsUnionMeasure |
| GetCentroid/Command.cs:260 | `inst` is reassigned for every direct object, so any non-instance object after the instance resets it to null | `[InstanceObject([SolidObject(s)]), OtherObject]` with `s` eligible: the result is null | keep the last geometry instance seen, so the symbol geometry is used whenever the direct pass collects nothing | medium; not executed | ElementCentroid.CollectedSolids, Findings.InstanceNotLastLosesFallback | Findings.CollectedSolidsIntended, Findings.LastInstanceSeenIsLastInstance |

`ElementCentroid.GetElementCentroid` models the code as written. `Findings.ElementMeasureIntended` applies both corrections. `Findings.ElementMeasureIntendedIsUnion` proves it equal to the per-solid result of the union when at least one solid is collected and every collected solid has non-zero raw volume. A zero-volume solid makes the weighted mean non-finite, while the union may still have a finite centroid.
