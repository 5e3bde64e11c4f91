/**
 * Three-component vectors and quaternions as exact reals.
 * `Vector3.distanceTo(b) < r` is modelled as `DistSq(a, b) < r * r`,
 * which is equivalent for a non-negative radius r.
 */
module Vectors {
  datatype Vec3 = Vec3(x: real, y: real, z: real)

  /** A rotation; only copied and compared, never computed with. */
  datatype Quat = Quat(x: real, y: real, z: real, w: real)

  /** `Math.PI`, as the decimal the runtime prints. */
  const Pi: real := 3.141592653589793

  const Origin: Vec3 := Vec3(0.0, 0.0, 0.0)

  function Add(a: Vec3, b: Vec3): Vec3 { Vec3(a.x + b.x, a.y + b.y, a.z + b.z) }

  function Sub(a: Vec3, b: Vec3): Vec3 { Vec3(a.x - b.x, a.y - b.y, a.z - b.z) }

  function Scale(a: Vec3, k: real): Vec3 { Vec3(a.x * k, a.y * k, a.z * k) }

  function Dot(a: Vec3, b: Vec3): real { a.x * b.x + a.y * b.y + a.z * b.z }

  function LengthSq(a: Vec3): real { a.x * a.x + a.y * a.y + a.z * a.z }

  function DistSq(a: Vec3, b: Vec3): real { LengthSq(Sub(a, b)) }

  /** `a.distanceTo(b) < r`. */
  predicate Near(a: Vec3, b: Vec3, r: real) { DistSq(a, b) < r * r }

  /** `THREE.MathUtils.lerp(x, y, t)`. */
  function Lerp(x: real, y: real, t: real): real { (1.0 - t) * x + t * y }

  /** `Vector3.lerp(target, t)`, component by component. */
  function LerpVec(a: Vec3, b: Vec3, t: real): Vec3 {
    Vec3(Lerp(a.x, b.x, t), Lerp(a.y, b.y, t), Lerp(a.z, b.z, t))
  }

  lemma LerpEnds(x: real, y: real)
    ensures Lerp(x, y, 0.0) == x && Lerp(x, y, 1.0) == y
  {
  }
}
