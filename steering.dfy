/**
 * The per-tick steering arithmetic that `CharacterController.Update` in
 * src/character.ts and built/character.js share: the input velocity the
 * keys ask for, the turn they apply to the model, the jump, and the
 * contact test that re-arms the jump. The two files differ only in their
 * constants (`Tuning`) and in how they reset a fallen player, which their
 * own modules add.
 */
module Steering {
  import opened Base
  import opened Input

  /** `velocityFactor`, `jumpVelocity`, `bodyRadius`, and the factor horizontal velocity is multiplied by each tick. */
  datatype Tuning = Tuning(velocityFactor: real, jumpVelocity: real, bodyRadius: real, damping: real)

  /** The physics body's position and velocity and the model's position and orientation. */
  datatype Pose = Pose(bodyPos: Vec3, bodyVel: Vec3, modelPos: Vec3, modelQuat: Quat)

  /** What one steering step produces: the new pose, key record, jump flag and `inputVelocity`. */
  datatype Steered = Steered(pose: Pose, keys: Keys, canJump: bool, inputVelocity: Vec3)

  /** `acc`: 3 with shift held, else 1. */
  function Acceleration(keys: Keys): real {
    if keys.shift then 3.0 else 1.0
  }

  /** The speed a held forward or backward key asks for in this tick, `acc * velocityFactor * dt * 100`. */
  function Speed(keys: Keys, factor: real, dt: real): real {
    Acceleration(keys) * BaseSpeed(factor, dt)
  }

  /** `velocityFactor * dt * 100`, the walking speed. */
  function BaseSpeed(factor: real, dt: real): real {
    factor * dt * 100.0
  }

  /**
   * `inputVelocity` before rotation, in the model's frame: along +z for
   * forward, -z for backward, with backward overriding forward because it
   * is assigned second.
   */
  function InputVelocity(keys: Keys, factor: real, dt: real): (r: Vec3)
    ensures r.x == 0.0 && r.y == 0.0
  {
    var z := if keys.backward then -Speed(keys, factor, dt)
             else if keys.forward then Speed(keys, factor, dt)
             else 0.0;
    Vec3(0.0, 0.0, z)
  }

  /** The `acc` and `inputVelocity` assignments of `Update`, before the rotation into the world frame. */
  method RequestVelocity(keys: Keys, factor: real, dt: real) returns (iv: Vec3)
    ensures iv == InputVelocity(keys, factor, dt)
  {
    iv := Zero;
    var acc := 1.0;
    if keys.shift {
      acc := 3.0;
    }
    if keys.forward {
      iv := iv.(z := acc * BaseSpeed(factor, dt));
    }
    if keys.backward {
      iv := iv.(z := -acc * BaseSpeed(factor, dt));
    }
  }

  lemma InputVelocityDirection(keys: Keys, factor: real, dt: real)
    ensures keys.backward ==> InputVelocity(keys, factor, dt).z == -(Acceleration(keys) * BaseSpeed(factor, dt))
    ensures !keys.backward && keys.forward ==> InputVelocity(keys, factor, dt).z == Acceleration(keys) * BaseSpeed(factor, dt)
    ensures !keys.backward && !keys.forward ==> InputVelocity(keys, factor, dt) == Zero
  {
  }

  /** Holding shift triples the requested velocity, whatever else is held. */
  lemma {:induction false} SprintTriples(keys: Keys, factor: real, dt: real)
    ensures InputVelocity(keys.(shift := true), factor, dt) == InputVelocity(keys.(shift := false), factor, dt).Scaled(3.0)
  {
    var s := BaseSpeed(factor, dt);
    var fast, slow := keys.(shift := true), keys.(shift := false);
    assert Speed(fast, factor, dt) == 3.0 * s;
    assert Speed(slow, factor, dt) == s;
  }

  /** The left turn of one update, `4 * PI * dt * 0.25` radians; the right turn is its opposite. */
  function TurnAngle(dt: real): real {
    4.0 * Pi * dt * 0.25
  }

  /** The orientation after the turn keys: left by the turn angle, then right by its opposite. */
  function Turned(q: Quat, keys: Keys, dt: real, yaw: Yaw): Quat {
    var afterLeft := if keys.left then yaw(q, TurnAngle(dt)) else q;
    if keys.right then yaw(afterLeft, -TurnAngle(dt)) else afterLeft
  }

  /** The turn-key branches of `Update`, applied to the model's orientation `q`. */
  method TurnModel(q: Quat, keys: Keys, dt: real, yaw: Yaw) returns (r: Quat)
    ensures r == Turned(q, keys, dt, yaw)
  {
    r := q;
    if keys.left {
      r := yaw(r, TurnAngle(dt));
    }
    if keys.right {
      r := yaw(r, -TurnAngle(dt));
    }
  }

  /** A yaw that composes by adding angles and is the identity at angle zero. */
  ghost predicate Additive(yaw: Yaw) {
    (forall q: Quat, a: real, b: real {:trigger yaw(yaw(q, a), b)} :: yaw(yaw(q, a), b) == yaw(q, a + b)) &&
    (forall q: Quat :: yaw(q, 0.0) == q)
  }

  /**
   * Left alone turns by pi*dt, right alone by -pi*dt, and for a yaw that
   * adds angles, left and right together cancel out.
   */
  lemma {:induction false} TurnDirections(q: Quat, keys: Keys, dt: real, yaw: Yaw)
    requires Additive(yaw)
    ensures keys.left && !keys.right ==> Turned(q, keys, dt, yaw) == yaw(q, Pi * dt)
    ensures !keys.left && keys.right ==> Turned(q, keys, dt, yaw) == yaw(q, -(Pi * dt))
    ensures !keys.left && !keys.right ==> Turned(q, keys, dt, yaw) == q
    ensures keys.left && keys.right ==> Turned(q, keys, dt, yaw) == q
  {
    assert TurnAngle(dt) == Pi * dt;
    if keys.left && keys.right {
      assert yaw(yaw(q, Pi * dt), -(Pi * dt)) == yaw(q, Pi * dt + -(Pi * dt));
      assert Pi * dt + -(Pi * dt) == 0.0;
    }
  }

  /**
   * One steering step from the pose, the key record and the controller's
   * `canJump`: turn, maybe jump (clearing the space key and `canJump`),
   * rotate the input velocity into the world frame, damp and add it to the
   * horizontal velocity, and place the model `bodyRadius` below the body.
   * The body's position itself is the physics engine's to change.
   */
  function Steer(p: Pose, keys: Keys, canJump: bool, dt: real, t: Tuning, yaw: Yaw, rotate: Rotation): Steered {
    var r := Turned(p.modelQuat, keys, dt, yaw);
    var jump := canJump && keys.space;
    var vy := if jump then t.jumpVelocity else p.bodyVel.y;
    var iv := rotate(r, InputVelocity(keys, t.velocityFactor, dt));
    var vel := Vec3(p.bodyVel.x * t.damping + iv.x, vy, p.bodyVel.z * t.damping + iv.z);
    var model := Vec3(p.bodyPos.x, p.bodyPos.y - t.bodyRadius, p.bodyPos.z);
    Steered(Pose(p.bodyPos, vel, model, r),
            if jump then keys.(space := false) else keys,
            if jump then false else canJump,
            iv)
  }

  /**
   * The jump fires exactly when `canJump` and space are both set; it sets
   * the vertical velocity to the jump velocity and consumes both flags.
   * Without it the vertical velocity is untouched.
   */
  lemma JumpRule(p: Pose, keys: Keys, canJump: bool, dt: real, t: Tuning, yaw: Yaw, rotate: Rotation)
    ensures var s := Steer(p, keys, canJump, dt, t, yaw, rotate);
      (canJump && keys.space ==> s.pose.bodyVel.y == t.jumpVelocity && !s.canJump && !s.keys.space) &&
      (!(canJump && keys.space) ==> s.pose.bodyVel.y == p.bodyVel.y && s.canJump == canJump && s.keys == keys)
  {
  }

  /**
   * One jump per contact: after a step that jumped, a second step (with
   * the space key pressed again or not) leaves the vertical velocity alone
   * unless a contact has re-armed `canJump` in between.
   */
  lemma {:induction false} NoDoubleJump(p: Pose, keys: Keys, keys2: Keys, dt: real, dt2: real, t: Tuning, yaw: Yaw, rotate: Rotation)
    requires keys.space
    ensures var s := Steer(p, keys, true, dt, t, yaw, rotate);
      var s2 := Steer(s.pose, keys2, s.canJump, dt2, t, yaw, rotate);
      s.pose.bodyVel.y == t.jumpVelocity && s2.pose.bodyVel.y == t.jumpVelocity && !s2.canJump
  {
    var s := Steer(p, keys, true, dt, t, yaw, rotate);
    JumpRule(p, keys, true, dt, t, yaw, rotate);
    JumpRule(s.pose, keys2, s.canJump, dt2, t, yaw, rotate);
  }

  /**
   * With neither forward nor backward held, and a rotation that maps the
   * zero vector to itself, the horizontal velocity only decays by the
   * damping factor.
   */
  lemma Coasting(p: Pose, keys: Keys, canJump: bool, dt: real, t: Tuning, yaw: Yaw, rotate: Rotation)
    requires !keys.forward && !keys.backward
    requires forall q: Quat :: rotate(q, Zero) == Zero
    ensures var v := Steer(p, keys, canJump, dt, t, yaw, rotate).pose.bodyVel;
      v.x == t.damping * p.bodyVel.x && v.z == t.damping * p.bodyVel.z
  {
  }

  /** The normal of a contact, pointing out of whatever the player touched. */
  function ContactNormal(c: Contact, player: BodyId): Vec3 {
    if c.bi == player then c.ni.Negated() else c.ni
  }

  /** A contact grounds the player when that normal points more than half up. */
  predicate Grounds(c: Contact, player: BodyId) {
    ContactNormal(c, player).y > 0.5
  }

  /**
   * The test does not depend on which of the two bodies the engine lists
   * first: swapping them and reversing the normal gives the same verdict.
   */
  lemma GroundsSymmetric(c: Contact, player: BodyId)
    requires (c.bi == player) != (c.bj == player)
    ensures Grounds(Contact(c.bj, c.bi, c.ni.Negated()), player) <==> Grounds(c, player)
  {
  }

  /** The player standing on a floor below it (normal from the floor, pointing up) is grounded; a ceiling is not. */
  lemma GroundsOnFloor(floor: BodyId, player: BodyId, ny: real)
    requires floor != player
    ensures Grounds(Contact(floor, player, Vec3(0.0, ny, 0.0)), player) <==> ny > 0.5
    ensures Grounds(Contact(player, floor, Vec3(0.0, -ny, 0.0)), player) <==> ny > 0.5
  {
  }
}
