/**
 * `CharacterController` of src/character.ts: the player's physics body and
 * model, driven by the keyboard through the steering step, with a reset to
 * the starting point when the player falls below y = -300.
 */
module Character {
  import opened Base
  import opened Input
  import opened Locomotion
  import opened Steering

  const StartingPos: Vec3 := Vec3(10.0, 1.0, 0.0)
  const VelocityFactor: real := 0.2
  const JumpVelocity: real := 50.0
  /** Half the height of the body's box. */
  const BodyRadius: real := 4.0
  const FallLimit: real := -300.0

  /** This controller adds the input velocity without damping (factor 1). */
  const Tune: Tuning := Tuning(VelocityFactor, JumpVelocity, BodyRadius, 1.0)

  /**
   * One `Update` of a loaded controller: the steering step, then, if the
   * body was below the fall limit, body and model both moved to the
   * starting point with the velocity cleared.
   */
  function Tick(p: Pose, keys: Keys, canJump: bool, dt: real, yaw: Yaw, rotate: Rotation): Steered {
    var s := Steer(p, keys, canJump, dt, Tune, yaw, rotate);
    if p.bodyPos.y < FallLimit then s.(pose := s.pose.(bodyPos := StartingPos, modelPos := StartingPos, bodyVel := Zero))
    else s
  }

  /**
   * A fallen player is put back at the starting point, at rest, keeping the
   * orientation the turn keys gave; anyone else keeps the body where the
   * physics put it, with the model standing 4 below the body's centre.
   */
  lemma TickPlacement(p: Pose, keys: Keys, canJump: bool, dt: real, yaw: Yaw, rotate: Rotation)
    ensures var s := Tick(p, keys, canJump, dt, yaw, rotate);
      s.pose.modelQuat == Turned(p.modelQuat, keys, dt, yaw) &&
      (p.bodyPos.y < -300.0 ==> s.pose.bodyPos == s.pose.modelPos == Vec3(10.0, 1.0, 0.0) && s.pose.bodyVel == Zero) &&
      (p.bodyPos.y >= -300.0 ==>
         s.pose.bodyPos == p.bodyPos && s.pose.modelPos == Vec3(p.bodyPos.x, p.bodyPos.y - 4.0, p.bodyPos.z))
  {
  }

  /**
   * There is no damping here: with no movement key held and a rotation
   * that maps zero to zero, the horizontal velocity is kept as it is.
   */
  lemma {:induction false} NoDamping(p: Pose, keys: Keys, canJump: bool, dt: real, yaw: Yaw, rotate: Rotation)
    requires !keys.forward && !keys.backward && p.bodyPos.y >= FallLimit
    requires forall q: Quat :: rotate(q, Zero) == Zero
    ensures var v := Tick(p, keys, canJump, dt, yaw, rotate).pose.bodyVel;
      v.x == p.bodyVel.x && v.z == p.bodyVel.z
  {
    Coasting(p, keys, canJump, dt, Tune, yaw, rotate);
  }

  /** The requested forward speed: 20 units per second walking, 60 sprinting. */
  lemma ForwardSpeed(keys: Keys, dt: real)
    requires keys.forward && !keys.backward
    ensures InputVelocity(keys, VelocityFactor, dt).z == (if keys.shift then 60.0 else 20.0) * dt
  {
  }

  class Controller {
    /** Whether the model has loaded (`_target` is set). */
    var loaded: bool
    var canJump: bool
    /** `playerBody.id`, known once the body exists. */
    var playerId: BodyId
    var bodyPos: Vec3
    var bodyVel: Vec3
    var modelPos: Vec3
    var modelQuat: Quat
    var inputVelocity: Vec3
    const input: ControllerInput
    const fsm: FSM

    function Posed(): Pose
      reads this
    {
      Pose(bodyPos, bodyVel, modelPos, modelQuat)
    }

    ghost predicate Valid()
      reads this, fsm
    {
      fsm.Valid()
    }

    /** `_Init`: released keys, no jump, a fresh state machine with no state; loading is started, not finished. */
    constructor ()
      ensures Valid() && !loaded && !canJump && fresh(input) && fresh(fsm)
      ensures input.keys == Released && !input.canJump
      ensures fsm.current == null && fsm.animations == map[] && fsm.states == Registry
      ensures inputVelocity == Zero
    {
      loaded := false;
      canJump := false;
      playerId := 0;
      bodyPos, bodyVel, modelPos, modelQuat := Zero, Zero, Zero, Identity;
      inputVelocity := Zero;
      input := new ControllerInput();
      fsm := new FSM();
    }

    /**
     * The model loader's callback: the model at the starting point, the body
     * `bodyRadius` above it, at rest.
     */
    method OnModelLoaded(id: BodyId)
      modifies this
      ensures loaded && playerId == id && canJump == old(canJump)
      ensures modelPos == StartingPos && bodyPos == Vec3(10.0, 5.0, 0.0) && bodyVel == Zero
      ensures modelQuat == old(modelQuat) && inputVelocity == old(inputVelocity)
    {
      modelPos := StartingPos;
      bodyPos := Vec3(modelPos.x, modelPos.y + BodyRadius, modelPos.z);
      bodyVel := Zero;
      playerId := id;
      loaded := true;
    }

    /** `_OnLoad(name, clip)` for one of the five state clips. */
    method OnAnimationLoaded(s: StateName, duration: real)
      requires Valid() && (fsm.current == null || duration > 0.0)
      modifies fsm
      ensures Valid() && fsm.animations == old(fsm.animations)[s := Animation(duration, NewAction)]
      ensures fsm.current == old(fsm.current) && fsm.states == old(fsm.states)
    {
      fsm.Bind(s, duration);
    }

    /** The loading manager's `onLoad`: every clip is in, so enter the idle state. */
    method OnAnimationsLoaded()
      requires Valid() && fsm.Ready()
      modifies fsm
      ensures Valid() && fsm.Switched("idle") && fsm.current != null && fsm.current.kind == Idle
    {
      assert Name(Idle) in fsm.states;
      fsm.SetState("idle");
    }

    /** The body's `collide` listener: a contact from below re-arms the jump. */
    method OnCollide(c: Contact)
      modifies this
      ensures canJump == (old(canJump) || Grounds(c, playerId))
      ensures Posed() == old(Posed()) && loaded == old(loaded) && playerId == old(playerId)
      ensures inputVelocity == old(inputVelocity)
    {
      var normal := if c.bi == playerId then c.ni.Negated() else c.ni;
      if normal.y > 0.5 {
        canJump := true;
      }
    }

    /**
     * `Update(timeInSeconds)`: nothing before the model has loaded;
     * afterwards one state-machine tick on the current keys and one `Tick`.
     * The key record the machine sees is the one before the jump consumes
     * the space key, and `input.canJump` receives the controller's flag from
     * before the step.
     */
    method Update(dt: real, yaw: Yaw, rotate: Rotation)
      requires Valid()
      modifies this, input, fsm
      ensures Valid()
      ensures !old(loaded) ==>
        Posed() == old(Posed()) && canJump == old(canJump) && inputVelocity == old(inputVelocity) &&
        input.keys == old(input.keys) && input.canJump == old(input.canJump) && fsm.current == old(fsm.current) &&
        fsm.animations == old(fsm.animations) && fsm.hooks == old(fsm.hooks)
      ensures !old(loaded) ==> unchanged(this, input, fsm)
      ensures old(loaded) ==>
        var s := Tick(old(Posed()), old(input.keys), old(canJump), dt, yaw, rotate);
        Posed() == s.pose && input.keys == s.keys && canJump == s.canJump && inputVelocity == s.inputVelocity &&
        input.canJump == old(canJump)
      ensures old(loaded) ==> fsm.Stepped(old(input.keys))
      ensures loaded == old(loaded) && playerId == old(playerId) && fsm.states == old(fsm.states)
    {
      if !loaded {
        return;
      }
      inputVelocity := Zero;
      input.canJump := canJump;
      fsm.Update(input.keys);
      Move(dt, yaw, rotate);
    }

    /** The part of `Update` after the state-machine tick. */
    method Move(dt: real, yaw: Yaw, rotate: Rotation)
      modifies this, input
      ensures var s := Tick(old(Posed()), old(input.keys), old(canJump), dt, yaw, rotate);
        Posed() == s.pose && input.keys == s.keys && canJump == s.canJump && inputVelocity == s.inputVelocity
      ensures input.canJump == old(input.canJump) && loaded == old(loaded) && playerId == old(playerId)
    {
      var keys := input.keys;
      ghost var p0, j0 := Posed(), canJump;
      var iv := RequestVelocity(keys, VelocityFactor, dt);
      var r := TurnModel(modelQuat, keys, dt, yaw);
      var vel := bodyVel;
      if canJump && keys.space {
        vel := vel.(y := JumpVelocity);
        input.keys := keys.(space := false);
        canJump := false;
      }
      modelQuat := r;
      iv := rotate(r, iv);
      inputVelocity := iv;
      vel := vel.(x := vel.x + iv.x, z := vel.z + iv.z);
      var model := Vec3(bodyPos.x, bodyPos.y - BodyRadius, bodyPos.z);
      ghost var s := Steer(p0, keys, j0, dt, Tune, yaw, rotate);
      assert s.pose == Pose(p0.bodyPos, vel, model, r);
      if bodyPos.y < FallLimit {
        bodyPos, model, vel := StartingPos, StartingPos, Zero;
      }
      bodyVel, modelPos := vel, model;
    }
  }
}
