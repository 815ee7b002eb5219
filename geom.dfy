/**
 * Geometry kernel of the path tracer: three-component vectors over the reals,
 * 3x3 matrices stored by columns, rigid transforms, rays and ray hits.
 *
 * The renderer computes in 32-bit floats; this model computes in exact reals.
 * The float primitives whose results the model does not interpret (square
 * root, normalisation) are gathered in the `Floats` record and passed in as
 * function values.
 */
module Geom {

  datatype Option<T> = None | Some(value: T)

  datatype Vec3 = Vec3(x: real, y: real, z: real)

  const Zero := Vec3(0.0, 0.0, 0.0)
  const One := Vec3(1.0, 1.0, 1.0)
  const UnitX := Vec3(1.0, 0.0, 0.0)
  const UnitY := Vec3(0.0, 1.0, 0.0)
  const UnitZ := Vec3(0.0, 0.0, 1.0)
  const NegUnitX := Vec3(-1.0, 0.0, 0.0)
  const NegUnitY := Vec3(0.0, -1.0, 0.0)
  const NegUnitZ := Vec3(0.0, 0.0, -1.0)

  function Splat(s: real): Vec3 { Vec3(s, s, s) }

  function Add(a: Vec3, b: Vec3): Vec3 { Vec3(a.x + b.x, a.y + b.y, a.z + b.z) }

  function Sub(a: Vec3, b: Vec3): Vec3 { Vec3(a.x - b.x, a.y - b.y, a.z - b.z) }

  function Neg(a: Vec3): Vec3 { Vec3(-a.x, -a.y, -a.z) }

  function Scale(s: real, a: Vec3): Vec3 { Vec3(s * a.x, s * a.y, s * a.z) }

  /** Componentwise product (glam's `Vec3A * Vec3A`). */
  function Mul(a: Vec3, b: Vec3): Vec3 { Vec3(a.x * b.x, a.y * b.y, a.z * b.z) }

  /** Componentwise quotient; every component of the divisor must be nonzero. */
  function Div(a: Vec3, b: Vec3): Vec3
    requires b.x != 0.0 && b.y != 0.0 && b.z != 0.0
  {
    Vec3(a.x / b.x, a.y / b.y, a.z / b.z)
  }

  function Dot(a: Vec3, b: Vec3): real { a.x * b.x + a.y * b.y + a.z * b.z }

  function Cross(a: Vec3, b: Vec3): Vec3
  {
    Vec3(a.y * b.z - a.z * b.y, a.z * b.x - a.x * b.z, a.x * b.y - a.y * b.x)
  }

  function AbsR(r: real): real { if r < 0.0 then -r else r }

  function MinR(a: real, b: real): real { if a <= b then a else b }

  function MaxR(a: real, b: real): real { if a >= b then a else b }

  /** `f32::clamp`: the value limited to `[lo, hi]`. */
  function Clamp(v: real, lo: real, hi: real): real
  {
    if v < lo then lo else if v > hi then hi else v
  }

  function Abs(a: Vec3): Vec3 { Vec3(AbsR(a.x), AbsR(a.y), AbsR(a.z)) }

  function MinV(a: Vec3, b: Vec3): Vec3 { Vec3(MinR(a.x, b.x), MinR(a.y, b.y), MinR(a.z, b.z)) }

  function MaxV(a: Vec3, b: Vec3): Vec3 { Vec3(MaxR(a.x, b.x), MaxR(a.y, b.y), MaxR(a.z, b.z)) }

  function MaxElement(a: Vec3): real { MaxR(MaxR(a.x, a.y), a.z) }

  function MinElement(a: Vec3): real { MinR(MinR(a.x, a.y), a.z) }

  /** Componentwise `a <= b`. */
  predicate LessEq(a: Vec3, b: Vec3) { a.x <= b.x && a.y <= b.y && a.z <= b.z }

  /** A 3x3 matrix given by its columns, as glam's `Mat3A`. */
  datatype Mat3 = Mat3(xAxis: Vec3, yAxis: Vec3, zAxis: Vec3)

  const Identity := Mat3(UnitX, UnitY, UnitZ)

  function MulMV(m: Mat3, v: Vec3): Vec3
  {
    Add(Add(Scale(v.x, m.xAxis), Scale(v.y, m.yAxis)), Scale(v.z, m.zAxis))
  }

  function Transpose(m: Mat3): Mat3
  {
    Mat3(Vec3(m.xAxis.x, m.yAxis.x, m.zAxis.x),
         Vec3(m.xAxis.y, m.yAxis.y, m.zAxis.y),
         Vec3(m.xAxis.z, m.yAxis.z, m.zAxis.z))
  }

  /** A linear map followed by a translation, as glam's `Affine3A`. */
  datatype Affine = Affine(matrix3: Mat3, translation: Vec3)

  function TransformPoint(a: Affine, p: Vec3): Vec3 { Add(MulMV(a.matrix3, p), a.translation) }

  function TransformVector(a: Affine, v: Vec3): Vec3 { MulMV(a.matrix3, v) }

  /** A ray; its direction need not have unit length. */
  datatype Ray = Ray(origin: Vec3, direction: Vec3)
  {
    /** The point `distance` units of `direction` along the ray. */
    function At(distance: real): Vec3 { Add(origin, Scale(distance, direction)) }
  }

  /**
   * A ray/surface intersection. `material` indexes the scene's material table
   * (the renderer holds a shared reference to the material instead).
   */
  datatype Hit = Hit(
    worldPos: Vec3,
    worldNormal: Vec3,
    localPos: Vec3,
    localNormal: Vec3,
    material: nat,
    distance: real,
    startedInside: bool,
    localToWorld: Mat3)

  /**
   * The float primitives the model leaves uninterpreted: `f32::sqrt`,
   * `Vec3A::normalize` and `Vec3A::normalize_or_zero`.
   */
  datatype Floats = Floats(
    sqrt: real -> real,
    normalize: Vec3 -> Vec3,
    normalizeOrZero: Vec3 -> Vec3)

  /** The one fact about square roots the intersection logic relies on. */
  ghost predicate SqrtPositive(fl: Floats)
  {
    forall v :: 0.0 < v ==> 0.0 < fl.sqrt(v)
  }
}
