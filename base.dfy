/**
 * Values shared by every part of the model: an Option type, the 3D vectors
 * and quaternions that three.js and cannon-es pass around, physics contacts,
 * and the few `Math` functions the game code calls.
 *
 * Quaternion arithmetic is not modelled: wherever the game applies a
 * quaternion to a vector (`applyQuaternion`) or multiplies in a turn about
 * the world +y axis (`multiply(setFromAxisAngle(+y, angle))`), the model
 * takes that operation as a function-valued parameter of type `Rotation` or
 * `Yaw`, about which nothing is known unless a lemma says so in its requires.
 */
module Base {

  datatype Option<T> = None | Some(value: T)

  datatype Vec3 = Vec3(x: real, y: real, z: real) {
    function Plus(o: Vec3): Vec3 { Vec3(x + o.x, y + o.y, z + o.z) }
    function Scaled(k: real): Vec3 { Vec3(k * x, k * y, k * z) }
    function Negated(): Vec3 { Vec3(-x, -y, -z) }
  }

  const Zero: Vec3 := Vec3(0.0, 0.0, 0.0)

  datatype Quat = Quat(x: real, y: real, z: real, w: real)

  /** The identity rotation, what `rotation.set(0, 0, 0)` leaves in the quaternion. */
  const Identity: Quat := Quat(0.0, 0.0, 0.0, 1.0)

  /** `v.applyQuaternion(q)`, left uninterpreted. */
  type Rotation = (Quat, Vec3) -> Vec3

  /** `q.multiply(new Quaternion().setFromAxisAngle((0, 1, 0), angle))`, left uninterpreted. */
  type Yaw = (Quat, real) -> Quat

  /** Physics body ids (`body.id` in cannon-es). */
  type BodyId = int

  /** The part of a cannon-es `collide` event the game reads: the two bodies and the normal `ni`. */
  datatype Contact = Contact(bi: BodyId, bj: BodyId, ni: Vec3)

  /** `Math.PI`, the double nearest to pi. */
  const Pi: real := 3.141592653589793

  function Abs(x: real): real { if x < 0.0 then -x else x }

  /** `Math.sign` on non-NaN numbers. */
  function Sign(x: real): real { if x > 0.0 then 1.0 else if x < 0.0 then -1.0 else 0.0 }

  function Min(a: real, b: real): real { if a <= b then a else b }

  function MinInt(a: int, b: int): int { if a <= b then a else b }

  /** `Math.floor`. */
  function Floor(x: real): int { x.Floor }

  /**
   * `Math.sign(s) * Math.min(Math.abs(d), Math.abs(v))`: the clamp both the
   * old controller and the particle drag apply, so that a decrement never
   * exceeds the value it is taken from.
   */
  function Clamped(s: real, d: real, v: real): real { Sign(s) * Min(Abs(d), Abs(v)) }

  /**
   * Taking away a clamped step whose sign is the value's own moves the value
   * toward zero without crossing it.
   */
  lemma ClampedStepTowardZero(v: real, d: real)
    ensures var r := v - Clamped(v, d, v); (v >= 0.0 ==> 0.0 <= r <= v) && (v <= 0.0 ==> v <= r <= 0.0)
  {
  }
}
