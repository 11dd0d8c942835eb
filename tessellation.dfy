/**
  The tessellation the host returns for a solid (Revit's TriangulatedSolidOrShell): a sequence of
  shell components, each a vertex list and triangles given by three indices into that list.

  The raw sums defined here are what the command accumulates before it finalises: the sum of the
  volume terms of every triangle of every component, and the sum of their centroid terms.
 */
module Tessellation {
  import opened Geometry
  import opened Integrator

  /** Revit's TriangleInShellComponent: VertexIndex0, VertexIndex1, VertexIndex2. */
  datatype TriangleInShellComponent = TriangleInShellComponent(index0: nat, index1: nat, index2: nat)

  datatype ShellComponentData = ShellComponentData(vertices: seq<XYZ>, triangles: seq<TriangleInShellComponent>)

  predicate IndicesInRange(c: ShellComponentData) {
    forall j :: 0 <= j < |c.triangles| ==>
      c.triangles[j].index0 < |c.vertices| &&
      c.triangles[j].index1 < |c.vertices| &&
      c.triangles[j].index2 < |c.vertices|
  }

  /** A shell component as the host produces it: every index names one of its vertices. */
  type ShellComponent = c: ShellComponentData | IndicesInRange(c) witness ShellComponentData([], [])

  datatype TriangulatedSolidOrShell = TriangulatedSolidOrShell(components: seq<ShellComponent>)

  /** Triangle j of a component by value: its three vertices looked up in the vertex list. */
  function TriangleAt(c: ShellComponent, j: nat): Triangle
    requires j < |c.triangles|
  {
    var t := c.triangles[j];
    Triangle(c.vertices[t.index0], c.vertices[t.index1], c.vertices[t.index2])
  }

  function ComponentTriangles(c: ShellComponent): (r: seq<Triangle>)
    ensures |r| == |c.triangles|
    ensures forall j :: 0 <= j < |r| ==> r[j] == TriangleAt(c, j)
  {
    seq(|c.triangles|, j requires 0 <= j < |c.triangles| => TriangleAt(c, j))
  }

  /** The triangles of a sequence of components, component after component. */
  function TrianglesOf(cs: seq<ShellComponent>): seq<Triangle>
    decreases |cs|
  {
    if cs == [] then [] else TrianglesOf(cs[..|cs| - 1]) + ComponentTriangles(cs[|cs| - 1])
  }

  /** The triangles of the first i + 1 components: those of the first i, then those of component i. */
  lemma TrianglesOfPrefixStep(cs: seq<ShellComponent>, i: nat)
    requires i < |cs|
    ensures TrianglesOf(cs[..i + 1]) == TrianglesOf(cs[..i]) + ComponentTriangles(cs[i])
  {
    assert cs[..i + 1][..i] == cs[..i];
  }

  function AllTriangles(t: TriangulatedSolidOrShell): seq<Triangle> {
    TrianglesOf(t.components)
  }

  /** Six times the signed volume: the value of cv.Volume after the loops. */
  function RawVolume(t: TriangulatedSolidOrShell): real {
    VolumeSum(AllTriangles(t))
  }

  /** The value of cv.Centroid after the loops. */
  function RawCentroid(t: TriangulatedSolidOrShell): XYZ {
    CentroidSum(AllTriangles(t))
  }

  /** A tessellation of one component sums that component's triangles. */
  lemma {:induction false} OneComponentSums(c: ShellComponent)
    ensures AllTriangles(TriangulatedSolidOrShell([c])) == ComponentTriangles(c)
    ensures RawVolume(TriangulatedSolidOrShell([c])) == VolumeSum(ComponentTriangles(c))
    ensures RawCentroid(TriangulatedSolidOrShell([c])) == CentroidSum(ComponentTriangles(c))
  {
    assert [c][..0] == [];
    assert TrianglesOf([c]) == TrianglesOf([]) + ComponentTriangles(c);
  }

  /** The triangles of two component sequences placed one after the other. */
  lemma {:induction false} TrianglesOfConcatenation(a: seq<ShellComponent>, b: seq<ShellComponent>)
    ensures TrianglesOf(a + b) == TrianglesOf(a) + TrianglesOf(b)
    decreases |b|
  {
    if b == [] {
      assert a + b == a;
    } else {
      var b', last := b[..|b| - 1], b[|b| - 1];
      assert (a + b)[..|a + b| - 1] == a + b';
      assert (a + b)[|a + b| - 1] == last;
      assert TrianglesOf(a + b) == TrianglesOf(a + b') + ComponentTriangles(last);
      assert TrianglesOf(b) == TrianglesOf(b') + ComponentTriangles(last);
      TrianglesOfConcatenation(a, b');
      assert TrianglesOf(a) + TrianglesOf(b') + ComponentTriangles(last)
          == TrianglesOf(a) + (TrianglesOf(b') + ComponentTriangles(last));
    }
  }

  /** The tessellation holding the components of both arguments. */
  function Union(t1: TriangulatedSolidOrShell, t2: TriangulatedSolidOrShell): TriangulatedSolidOrShell {
    TriangulatedSolidOrShell(t1.components + t2.components)
  }

  /** The raw sums of a union of shells are the sums of the raw sums of its parts. */
  lemma {:induction false} RawSumsOfUnion(t1: TriangulatedSolidOrShell, t2: TriangulatedSolidOrShell)
    ensures RawVolume(Union(t1, t2)) == RawVolume(t1) + RawVolume(t2)
    ensures RawCentroid(Union(t1, t2)) == Add(RawCentroid(t1), RawCentroid(t2))
  {
    TrianglesOfConcatenation(t1.components, t2.components);
    SumsOfConcatenation(AllTriangles(t1), AllTriangles(t2));
  }

  // ---------------------------------------------------------------------------------------------
  // Winding

  function ReversedComponent(c: ShellComponent): (r: ShellComponent)
    ensures r.vertices == c.vertices && |r.triangles| == |c.triangles|
  {
    var tris := seq(|c.triangles|, j requires 0 <= j < |c.triangles| =>
      TriangleInShellComponent(c.triangles[j].index0, c.triangles[j].index2, c.triangles[j].index1));
    ShellComponentData(c.vertices, tris)
  }

  function ReversedComponents(cs: seq<ShellComponent>): (r: seq<ShellComponent>)
    ensures |r| == |cs|
    ensures forall i :: 0 <= i < |cs| ==> r[i] == ReversedComponent(cs[i])
  {
    seq(|cs|, i requires 0 <= i < |cs| => ReversedComponent(cs[i]))
  }

  /** The same tessellation with the winding of every triangle reversed. */
  function ReverseWinding(t: TriangulatedSolidOrShell): TriangulatedSolidOrShell {
    TriangulatedSolidOrShell(ReversedComponents(t.components))
  }

  lemma {:induction false} TrianglesOfReversed(cs: seq<ShellComponent>)
    ensures TrianglesOf(ReversedComponents(cs)) == ReversedAll(TrianglesOf(cs))
    decreases |cs|
  {
    if cs != [] {
      var rs := ReversedComponents(cs);
      var cs' := cs[..|cs| - 1];
      assert rs[..|rs| - 1] == ReversedComponents(cs');
      TrianglesOfReversed(cs');
      var last := cs[|cs| - 1];
      assert ComponentTriangles(rs[|rs| - 1]) == ReversedAll(ComponentTriangles(last));
      assert ReversedAll(TrianglesOf(cs))
          == ReversedAll(TrianglesOf(cs')) + ReversedAll(ComponentTriangles(last));
    }
  }

  /** Reversing the winding everywhere negates both raw sums. */
  lemma {:induction false} ReverseWindingNegatesRawSums(t: TriangulatedSolidOrShell)
    ensures RawVolume(ReverseWinding(t)) == -RawVolume(t)
    ensures RawCentroid(ReverseWinding(t)) == Neg(RawCentroid(t))
  {
    TrianglesOfReversed(t.components);
    ReversedWindingSums(AllTriangles(t));
  }

  // ---------------------------------------------------------------------------------------------
  // Visit order of the nested loops

  /** The (component, triangle) index pairs of one component's inner loop. */
  function ComponentVisits(i: nat, m: nat): (r: seq<(nat, nat)>)
    ensures |r| == m
    ensures forall j :: 0 <= j < m ==> r[j] == (i, j)
  {
    seq(m, j requires 0 <= j < m => (i, j))
  }

  /** The index pairs in the order the nested loops of the command visit them. */
  function VisitsOf(cs: seq<ShellComponent>): seq<(nat, nat)>
    decreases |cs|
  {
    if cs == [] then []
    else VisitsOf(cs[..|cs| - 1]) + ComponentVisits(|cs| - 1, |cs[|cs| - 1].triangles|)
  }

  predicate LexLess(p: (nat, nat), q: (nat, nat)) {
    p.0 < q.0 || (p.0 == q.0 && p.1 < q.1)
  }

  /**
    The loops visit every triangle of every component, and only those, exactly once, in order
    (components first to last, triangles first to last), and the k-th triangle summed is the
    triangle at the k-th visit.
   */
  lemma {:induction false} VisitsOfEnumerateTriangles(cs: seq<ShellComponent>)
    ensures forall p :: p in VisitsOf(cs) <==> p.0 < |cs| && p.1 < |cs[p.0].triangles|
    ensures forall a, b :: 0 <= a < b < |VisitsOf(cs)| ==> LexLess(VisitsOf(cs)[a], VisitsOf(cs)[b])
    ensures |VisitsOf(cs)| == |TrianglesOf(cs)|
    ensures forall k :: 0 <= k < |VisitsOf(cs)| ==>
      VisitsOf(cs)[k].0 < |cs| && VisitsOf(cs)[k].1 < |cs[VisitsOf(cs)[k].0].triangles| &&
      TrianglesOf(cs)[k] == TriangleAt(cs[VisitsOf(cs)[k].0], VisitsOf(cs)[k].1)
    decreases |cs|
  {
    if cs != [] {
      var n := |cs| - 1;
      var cs' := cs[..n];
      VisitsOfEnumerateTriangles(cs');
      var vs', cv := VisitsOf(cs'), ComponentVisits(n, |cs[n].triangles|);
      var ts', ct := TrianglesOf(cs'), ComponentTriangles(cs[n]);
      assert VisitsOf(cs) == vs' + cv;
      assert TrianglesOf(cs) == ts' + ct;
      forall p ensures p in VisitsOf(cs) <==> p.0 < |cs| && p.1 < |cs[p.0].triangles| {
        if p.0 < n {
          assert cs[p.0] == cs'[p.0];
          assert p !in cv;
        } else if p.0 == n && p.1 < |cs[n].triangles| {
          assert cv[p.1] == p;
        }
      }
      forall k | 0 <= k < |VisitsOf(cs)|
        ensures VisitsOf(cs)[k].0 < |cs| && VisitsOf(cs)[k].1 < |cs[VisitsOf(cs)[k].0].triangles|
        ensures TrianglesOf(cs)[k] == TriangleAt(cs[VisitsOf(cs)[k].0], VisitsOf(cs)[k].1)
      {
        if k < |vs'| {
          assert VisitsOf(cs)[k] == vs'[k];
          assert cs[vs'[k].0] == cs'[vs'[k].0];
        } else {
          assert VisitsOf(cs)[k] == cv[k - |vs'|];
        }
      }
      forall a, b | 0 <= a < b < |VisitsOf(cs)| ensures LexLess(VisitsOf(cs)[a], VisitsOf(cs)[b]) {
        if b < |vs'| {
          assert VisitsOf(cs)[a] == vs'[a] && VisitsOf(cs)[b] == vs'[b];
        } else if a < |vs'| {
          assert VisitsOf(cs)[a] == vs'[a] && vs'[a] in vs';
        }
      }
    }
  }
}
