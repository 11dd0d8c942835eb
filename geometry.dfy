/**
  Points and vectors of the host's geometry model (Revit's XYZ), with coordinates as reals.

  A Revit XYZ holds doubles. Over the reals every operation used by the centroid code is exact
  except a division by zero, which in double arithmetic leaves NaN or infinite coordinates behind.
  DoubleXYZ keeps track of exactly that: a value is either a finite XYZ or NonFinite.
 */
module Geometry {

  datatype XYZ = XYZ(x: real, y: real, z: real)

  const Zero := XYZ(0.0, 0.0, 0.0)

  function Add(a: XYZ, b: XYZ): XYZ {
    XYZ(a.x + b.x, a.y + b.y, a.z + b.z)
  }

  function Sub(a: XYZ, b: XYZ): XYZ {
    XYZ(a.x - b.x, a.y - b.y, a.z - b.z)
  }

  function Neg(a: XYZ): XYZ {
    XYZ(-a.x, -a.y, -a.z)
  }

  /** The scalar product k * a (Revit's `double * XYZ`). */
  function Scale(k: real, a: XYZ): XYZ {
    XYZ(k * a.x, k * a.y, k * a.z)
  }

  /** Scaling distributes over addition. */
  lemma ScaleDistributes(k: real, a: XYZ, b: XYZ)
    ensures Add(Scale(k, a), Scale(k, b)) == Scale(k, Add(a, b))
  {
  }

  /** a / d for a non-zero divisor (Revit's `XYZ / double`); d * (a / d) gives a back. */
  function Div(a: XYZ, d: real): (r: XYZ)
    requires d != 0.0
    ensures Scale(d, r) == a
  {
    XYZ(a.x / d, a.y / d, a.z / d)
  }

  function Dot(a: XYZ, b: XYZ): real {
    a.x * b.x + a.y * b.y + a.z * b.z
  }

  function Cross(a: XYZ, b: XYZ): XYZ {
    XYZ(a.y * b.z - a.z * b.y, a.z * b.x - a.x * b.z, a.x * b.y - a.y * b.x)
  }

  /** The square of XYZ.GetLength(); comparing it with a squared bound avoids the square root. */
  function LengthSquared(a: XYZ): (r: real)
    ensures r >= 0.0
  {
    Dot(a, a)
  }

  /** A Revit XYZ as double arithmetic leaves it: finite coordinates, or NaN/infinite ones. */
  datatype DoubleXYZ = Finite(value: XYZ) | NonFinite {

    /** `+` on XYZ: non-finite coordinates stay non-finite (NaN or Inf plus anything). */
    function Plus(o: DoubleXYZ): (r: DoubleXYZ)
      ensures r.Finite? <==> Finite? && o.Finite?
      ensures r.Finite? ==> r.value == Add(value, o.value)
    {
      if Finite? && o.Finite? then Finite(Add(value, o.value)) else NonFinite
    }

    /** `double * XYZ`: a scalar times NaN or Inf is NaN or Inf again (0 * Inf is NaN). */
    function Times(k: real): (r: DoubleXYZ)
      ensures r.Finite? <==> Finite?
      ensures r.Finite? ==> r.value == Scale(k, value)
    {
      if Finite? then Finite(Scale(k, value)) else NonFinite
    }

    /** `XYZ / double`: dividing by zero gives Inf (non-zero coordinate) or NaN (zero coordinate). */
    function DividedBy(d: real): (r: DoubleXYZ)
      ensures r.Finite? <==> Finite? && d != 0.0
      ensures r.Finite? ==> Scale(d, r.value) == value
    {
      if Finite? && d != 0.0 then Finite(Div(value, d)) else NonFinite
    }
  }

  /**
    A non-finite point absorbs every operation the centroid code applies, on either side of `+`,
    and `+` does not depend on the order of its operands.
   */
  lemma NonFiniteAbsorbs(p: DoubleXYZ, q: DoubleXYZ, k: real, d: real)
    ensures NonFinite.Plus(p) == NonFinite && p.Plus(NonFinite) == NonFinite
    ensures NonFinite.Times(k) == NonFinite && NonFinite.DividedBy(d) == NonFinite
    ensures p.Plus(q) == q.Plus(p)
  {
  }
}
