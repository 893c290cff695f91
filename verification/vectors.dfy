/** Unity's `Vector3`, `Bounds` and transform conversions over exact reals.
    Every operation is exact: floating-point rounding is abstracted away. */
module Vectors {

  datatype Vec3 = Vec3(x: real, y: real, z: real)

  const Zero: Vec3 := Vec3(0.0, 0.0, 0.0)

  function Add(a: Vec3, b: Vec3): Vec3 {
    Vec3(a.x + b.x, a.y + b.y, a.z + b.z)
  }

  function Sub(a: Vec3, b: Vec3): Vec3 {
    Vec3(a.x - b.x, a.y - b.y, a.z - b.z)
  }

  function Scale(a: Vec3, k: real): Vec3 {
    Vec3(a.x * k, a.y * k, a.z * k)
  }

  function SqrMagnitude(a: Vec3): real {
    a.x * a.x + a.y * a.y + a.z * a.z
  }

  /** Square of `Vector3.Distance`. Comparing squared distances orders
      points exactly as comparing distances does, since the square root is
      strictly increasing on the non-negative reals. */
  function SqrDistance(a: Vec3, b: Vec3): real {
    SqrMagnitude(Sub(a, b))
  }

  /** Unity's `Vector3.kEpsilon` squared: `==` on vectors holds when the
      squared length of the difference is below this. */
  const EqualityTolerance: real := 0.0000000001

  /** Unity's `Vector3 ==`, which is approximate (a tolerance of 1e-5 on the
      length of the difference), not component-wise exact. */
  predicate ApproxEqual(a: Vec3, b: Vec3) {
    SqrDistance(a, b) < EqualityTolerance
  }

  /** An axis-aligned world-space bounding box (`Collider.bounds`). */
  datatype Bounds = Bounds(min: Vec3, max: Vec3)

  /** A component's `TransformPoint` (local to world) and
      `InverseTransformPoint` (world to local). */
  datatype Frame = Frame(toWorld: Vec3 -> Vec3, toLocal: Vec3 -> Vec3)

  /** The two conversions of a transform undo each other. */
  ghost predicate Inverse(f: Frame) {
    && (forall p :: f.toWorld(f.toLocal(p)) == p)
    && (forall p :: f.toLocal(f.toWorld(p)) == p)
  }

  lemma AddSubCancel(a: Vec3, b: Vec3)
    ensures Add(b, Sub(a, b)) == a
    ensures Sub(Add(b, a), b) == a
  {
  }
}
