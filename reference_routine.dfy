/**
  The reference formulation of the same integration that the command keeps in a comment, f():
  vertex coordinates in three parallel arrays, faces in a two-dimensional array whose row i holds
  the three vertex indices of face i, and separate running sums cx, cy, cz and volume.
 */
module ReferenceRoutine {
  import opened Geometry
  import opened Integrator
  import opened Tessellation
  import opened SolidCentroid

  /** The vertex arrays read as points. */
  function Points(xs: seq<real>, ys: seq<real>, zs: seq<real>): (r: seq<XYZ>)
    requires |ys| == |xs| && |zs| == |xs|
    ensures |r| == |xs|
    ensures forall i :: 0 <= i < |r| ==> r[i] == XYZ(xs[i], ys[i], zs[i])
  {
    seq(|xs|, i requires 0 <= i < |xs| => XYZ(xs[i], ys[i], zs[i]))
  }

  /** Every one of the first numFaces rows names three vertices of the arrays. */
  ghost predicate FacesInRange(faces: array2<int>, numFaces: int, numVertices: int)
    reads faces
  {
    && 0 <= numFaces <= faces.Length0
    && 3 <= faces.Length1
    && forall i, j :: 0 <= i < numFaces && 0 <= j < 3 ==> 0 <= faces[i, j] < numVertices
  }

  /** The first n rows of the face array as index triples. */
  ghost function FaceRows(faces: array2<int>, n: int, numVertices: int): (r: seq<TriangleInShellComponent>)
    reads faces
    requires 0 <= n && FacesInRange(faces, n, numVertices)
    ensures |r| == n
    ensures forall i :: 0 <= i < n ==>
      r[i] == TriangleInShellComponent(faces[i, 0] as nat, faces[i, 1] as nat, faces[i, 2] as nat)
    decreases n
  {
    if n == 0 then []
    else FaceRows(faces, n - 1, numVertices)
         + [TriangleInShellComponent(faces[n - 1, 0] as nat, faces[n - 1, 1] as nat, faces[n - 1, 2] as nat)]
  }

  /** The arrays read as one shell component with numFaces triangles. */
  ghost function AsComponent(vertX: array<real>, vertY: array<real>, vertZ: array<real>,
                             faces: array2<int>, numFaces: int): ShellComponent
    reads vertX, vertY, vertZ, faces
    requires vertY.Length == vertX.Length && vertZ.Length == vertX.Length
    requires FacesInRange(faces, numFaces, vertX.Length)
  {
    ShellComponentData(Points(vertX[..], vertY[..], vertZ[..]), FaceRows(faces, numFaces, vertX.Length))
  }

  /** Face i of the arrays is the triangle of the vertices its row names. */
  lemma AsComponentTriangle(vertX: array<real>, vertY: array<real>, vertZ: array<real>,
                            faces: array2<int>, numFaces: int, i: int)
    requires vertY.Length == vertX.Length && vertZ.Length == vertX.Length
    requires FacesInRange(faces, numFaces, vertX.Length)
    requires 0 <= i < numFaces
    ensures
      var c := AsComponent(vertX, vertY, vertZ, faces, numFaces);
      var a, b, d := faces[i, 0], faces[i, 1], faces[i, 2];
      |ComponentTriangles(c)| == numFaces &&
      ComponentTriangles(c)[i] == Triangle(XYZ(vertX[a], vertY[a], vertZ[a]),
                                           XYZ(vertX[b], vertY[b], vertZ[b]),
                                           XYZ(vertX[d], vertY[d], vertZ[d]))
  {
  }

  /** (cx, cy, cz) plus k times the sum of three points, coordinate by coordinate. */
  lemma AddScaledVertexSum(cx: real, cy: real, cz: real, k: real,
                           x1: real, y1: real, z1: real, x2: real, y2: real, z2: real,
                           x3: real, y3: real, z3: real)
    ensures Add(XYZ(cx, cy, cz), Scale(k, Add(Add(XYZ(x1, y1, z1), XYZ(x2, y2, z2)), XYZ(x3, y3, z3))))
         == XYZ(cx + (x1 + x2 + x3) * k, cy + (y1 + y2 + y3) * k, cz + (z1 + z2 + z3) * k)
  {
    var sx, sy, sz := x1 + x2 + x3, y1 + y2 + y3, z1 + z2 + z3;
    assert Add(Add(XYZ(x1, y1, z1), XYZ(x2, y2, z2)), XYZ(x3, y3, z3)) == XYZ(sx, sy, sz);
    assert Scale(k, XYZ(sx, sy, sz)) == XYZ(k * sx, k * sy, k * sz);
    assert k * sx == sx * k && k * sy == sy * k && k * sz == sz * k;
    assert Add(XYZ(cx, cy, cz), XYZ(k * sx, k * sy, k * sz)) == XYZ(cx + sx * k, cy + sy * k, cz + sz * k);
  }

  /**
    The body of f()'s loop for one face with vertices (x1, y1, z1), (x2, y2, z2), (x3, y3, z3):
    the running sums grow by the face's volume term and centroid term.
   */
  method AddFace(volume: real, cx: real, cy: real, cz: real,
                 x1: real, y1: real, z1: real, x2: real, y2: real, z2: real,
                 x3: real, y3: real, z3: real)
    returns (volume': real, cx': real, cy': real, cz': real)
    ensures volume' == volume + VolumeTerm(Triangle(XYZ(x1, y1, z1), XYZ(x2, y2, z2), XYZ(x3, y3, z3)))
    ensures XYZ(cx', cy', cz')
         == Add(XYZ(cx, cy, cz), CentroidTerm(Triangle(XYZ(x1, y1, z1), XYZ(x2, y2, z2), XYZ(x3, y3, z3))))
  {
    var v := SignedVolumeTerm(XYZ(x1, y1, z1), XYZ(x2, y2, z2), XYZ(x3, y3, z3));
    volume' := volume + v;
    cx' := cx + (x1 + x2 + x3) * v;
    cy' := cy + (y1 + y2 + y3) * v;
    cz' := cz + (z1 + z2 + z3) * v;
    AddScaledVertexSum(cx, cy, cz, v, x1, y1, z1, x2, y2, z2, x3, y3, z3);
  }

  /** Finalising the sums over a component's triangles gives the per-solid result for it. */
  lemma FinalizeSums(c: ShellComponent, volume: real, cx: real, cy: real, cz: real)
    requires volume == VolumeSum(ComponentTriangles(c)) && XYZ(cx, cy, cz) == CentroidSum(ComponentTriangles(c))
    ensures Measure(Finite(XYZ(cx, cy, cz)).DividedBy(4.0 * volume), volume / 6.0)
         == SolidMeasure(TriangulatedSolidOrShell([c]))
  {
    var t := TriangulatedSolidOrShell([c]);
    OneComponentSums(c);
    FinalizeRawSums(t, Finite(XYZ(cx, cy, cz)), volume);
  }

  /** One pass of f()'s loop: read the three vertices of face i and add its terms to the sums. */
  method AddRow(vertX: array<real>, vertY: array<real>, vertZ: array<real>,
                faces: array2<int>, numFaces: int, i: int, volume: real, cx: real, cy: real, cz: real)
    returns (volume': real, cx': real, cy': real, cz': real)
    requires vertY.Length == vertX.Length && vertZ.Length == vertX.Length
    requires 0 <= numFaces <= faces.Length0 && 3 <= faces.Length1
    requires forall i, j :: 0 <= i < numFaces && 0 <= j < 3 ==> 0 <= faces[i, j] < vertX.Length
    requires 0 <= i < numFaces
    requires volume == VolumeSum(ComponentTriangles(AsComponent(vertX, vertY, vertZ, faces, numFaces))[..i])
    requires XYZ(cx, cy, cz) == CentroidSum(ComponentTriangles(AsComponent(vertX, vertY, vertZ, faces, numFaces))[..i])
    ensures volume' == VolumeSum(ComponentTriangles(AsComponent(vertX, vertY, vertZ, faces, numFaces))[..i + 1])
    ensures XYZ(cx', cy', cz') == CentroidSum(ComponentTriangles(AsComponent(vertX, vertY, vertZ, faces, numFaces))[..i + 1])
  {
    ghost var tris := ComponentTriangles(AsComponent(vertX, vertY, vertZ, faces, numFaces));
    var x1, y1, z1 := vertX[faces[i, 0]], vertY[faces[i, 0]], vertZ[faces[i, 0]];
    var x2, y2, z2 := vertX[faces[i, 1]], vertY[faces[i, 1]], vertZ[faces[i, 1]];
    var x3, y3, z3 := vertX[faces[i, 2]], vertY[faces[i, 2]], vertZ[faces[i, 2]];
    assert tris[i] == Triangle(XYZ(x1, y1, z1), XYZ(x2, y2, z2), XYZ(x3, y3, z3)) by {
      AsComponentTriangle(vertX, vertY, vertZ, faces, numFaces, i);
    }
    SumsPrefixStep([], tris, i);
    assert [] + tris[..i] == tris[..i] && [] + tris[..i + 1] == tris[..i + 1];
    volume', cx', cy', cz' := AddFace(volume, cx, cy, cz, x1, y1, z1, x2, y2, z2, x3, y3, z3);
  }

  /**
    f(): the same sums as GetCentroid(Solid) for the one-component tessellation the arrays
    describe, finalised in the same order.
   */
  method ReferenceCentroid(vertX: array<real>, vertY: array<real>, vertZ: array<real>,
                           faces: array2<int>, numFaces: int)
    returns (centroid: DoubleXYZ, volume: real)
    requires vertY.Length == vertX.Length && vertZ.Length == vertX.Length
    requires 0 <= numFaces <= faces.Length0 && 3 <= faces.Length1
    requires forall i, j :: 0 <= i < numFaces && 0 <= j < 3 ==> 0 <= faces[i, j] < vertX.Length
    ensures Measure(centroid, volume)
         == SolidMeasure(TriangulatedSolidOrShell([AsComponent(vertX, vertY, vertZ, faces, numFaces)]))
  {
    ghost var c := AsComponent(vertX, vertY, vertZ, faces, numFaces);
    ghost var tris := ComponentTriangles(c);
    volume := 0.0;
    var cx, cy, cz := 0.0, 0.0, 0.0;
    var i := 0;
    while i < numFaces
      invariant 0 <= i <= numFaces
      invariant volume == VolumeSum(tris[..i])
      invariant XYZ(cx, cy, cz) == CentroidSum(tris[..i])
    {
      volume, cx, cy, cz := AddRow(vertX, vertY, vertZ, faces, numFaces, i, volume, cx, cy, cz);
      i := i + 1;
    }
    assert tris[..numFaces] == tris;
    FinalizeSums(c, volume, cx, cy, cz);
    centroid := Finite(XYZ(cx, cy, cz)).DividedBy(4.0 * volume);
    volume := volume / 6.0;
  }
}
