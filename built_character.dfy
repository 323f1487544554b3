/**
 * `CharacterController` of built/character.js, the controller the game loop
 * in src/main.ts drives. Against src/character.ts it has other constants,
 * damps the horizontal velocity by 0.8 every tick, resets a fallen player
 * below y = -250 through `ResetPlayer` (which the game also calls at game
 * over), reports `characterLoaded` once the animations are in, and has
 * `Enable` and `Disable`, which reset the input.
 */
module BuiltCharacter {
  import opened Base
  import opened Input
  import opened Locomotion
  import opened Steering

  const StartingPos: Vec3 := Vec3(10.0, 3.0, 0.0)
  const VelocityFactor: real := 1.0
  const JumpVelocity: real := 45.0
  /** Half the height of the body's box. */
  const BodyRadius: real := 8.0
  const Damping: real := 0.8
  const FallLimit: real := -250.0

  const Tune: Tuning := Tuning(VelocityFactor, JumpVelocity, BodyRadius, Damping)

  /** The pose `ResetPlayer` installs: model at the start, body `bodyRadius` above it, at rest, unrotated. */
  const ResetPose: Pose := Pose(Vec3(StartingPos.x, StartingPos.y + BodyRadius, StartingPos.z), Zero, StartingPos, Identity)

  /** One `Update` of a loaded controller: the steering step, then `ResetPlayer` if the body was below the fall limit. */
  function Tick(p: Pose, keys: Keys, canJump: bool, dt: real, yaw: Yaw, rotate: Rotation): Steered {
    var s := Steer(p, keys, canJump, dt, Tune, yaw, rotate);
    if p.bodyPos.y < FallLimit then s.(pose := ResetPose) else s
  }

  /**
   * Below y = -250 the player is put back with the body at (10, 11, 0), the
   * model at (10, 3, 0), at rest and facing the initial direction; anyone
   * else keeps the body where the physics put it and gets the model 8 below
   * it. Either way the model stands `bodyRadius` below the body.
   */
  lemma TickPlacement(p: Pose, keys: Keys, canJump: bool, dt: real, yaw: Yaw, rotate: Rotation)
    ensures var s := Tick(p, keys, canJump, dt, yaw, rotate);
      (p.bodyPos.y < -250.0 ==>
         s.pose.bodyPos == Vec3(10.0, 11.0, 0.0) && s.pose.modelPos == Vec3(10.0, 3.0, 0.0) &&
         s.pose.bodyVel == Zero && s.pose.modelQuat == Identity) &&
      (p.bodyPos.y >= -250.0 ==> s.pose.bodyPos == p.bodyPos && s.pose.modelQuat == Turned(p.modelQuat, keys, dt, yaw)) &&
      s.pose.modelPos == Vec3(s.pose.bodyPos.x, s.pose.bodyPos.y - 8.0, s.pose.bodyPos.z)
  {
  }

  /** `n` ticks with the same keys and time step, the jump flag carried over from tick to tick. */
  function Ticks(p: Pose, keys: Keys, canJump: bool, dt: real, yaw: Yaw, rotate: Rotation, n: nat): Steered
    decreases n
  {
    var s := Tick(p, keys, canJump, dt, yaw, rotate);
    if n <= 1 then s else Ticks(s.pose, s.keys, s.canJump, dt, yaw, rotate, n - 1)
  }

  function Power(b: real, n: nat): real {
    if n == 0 then 1.0 else b * Power(b, n - 1)
  }

  /**
   * Released movement keys let the player coast to a halt: after `n` ticks
   * the horizontal velocity is `0.8^n` of what it was (for a rotation that
   * maps zero to zero, and a player that has not fallen).
   */
  lemma {:induction false} CoastingDecays(p: Pose, keys: Keys, canJump: bool, dt: real, yaw: Yaw, rotate: Rotation, n: nat)
    requires n >= 1 && !keys.forward && !keys.backward && p.bodyPos.y >= FallLimit
    requires forall q: Quat :: rotate(q, Zero) == Zero
    ensures var s := Ticks(p, keys, canJump, dt, yaw, rotate, n);
      s.pose.bodyPos == p.bodyPos &&
      s.pose.bodyVel.x == Power(0.8, n) * p.bodyVel.x && s.pose.bodyVel.z == Power(0.8, n) * p.bodyVel.z
    decreases n
  {
    var s := Tick(p, keys, canJump, dt, yaw, rotate);
    Coasting(p, keys, canJump, dt, Tune, yaw, rotate);
    JumpRule(p, keys, canJump, dt, Tune, yaw, rotate);
    if n > 1 {
      assert !s.keys.forward && !s.keys.backward;
      CoastingDecays(s.pose, s.keys, s.canJump, dt, yaw, rotate, n - 1);
      assert Power(0.8, n) * p.bodyVel.x == Power(0.8, n - 1) * (0.8 * p.bodyVel.x);
      assert Power(0.8, n) * p.bodyVel.z == Power(0.8, n - 1) * (0.8 * p.bodyVel.z);
    }
  }

  /** The requested forward speed: 100 units per second walking, 300 sprinting. */
  lemma ForwardSpeed(keys: Keys, dt: real)
    requires keys.forward && !keys.backward
    ensures InputVelocity(keys, VelocityFactor, dt).z == (if keys.shift then 300.0 else 100.0) * dt
  {
  }

  class Controller {
    /** Whether the model has loaded (`_target` is set). */
    var loaded: bool
    /** Set once the animations have loaded and the idle state is entered. */
    var characterLoaded: bool
    var canJump: bool
    /** `playerBody.id`, known once the body exists. */
    var playerId: BodyId
    var bodyPos: Vec3
    var bodyVel: Vec3
    var modelPos: Vec3
    var modelQuat: Quat
    var inputVelocity: Vec3
    const input: ControllerInput
    const fsm: FSM

    function Posed(): Pose
      reads this
    {
      Pose(bodyPos, bodyVel, modelPos, modelQuat)
    }

    ghost predicate Valid()
      reads this, fsm
    {
      fsm.Valid() && (characterLoaded ==> loaded && fsm.current != null)
    }

    /** `_Init`: nothing loaded, no jump, a fresh state machine with no state. */
    constructor ()
      ensures Valid() && !loaded && !characterLoaded && !canJump && fresh(input) && fresh(fsm)
      ensures input.keys == Released && !input.canJump
      ensures fsm.current == null && fsm.animations == map[] && fsm.states == Registry
      ensures inputVelocity == Zero
    {
      loaded := false;
      characterLoaded := false;
      canJump := false;
      playerId := 0;
      bodyPos, bodyVel, modelPos, modelQuat := Zero, Zero, Zero, Identity;
      inputVelocity := Zero;
      input := new ControllerInput();
      fsm := new FSM();
    }

    /** The model loader's callback: the model at the starting point and the body `bodyRadius` above it. */
    method OnModelLoaded(id: BodyId)
      requires Valid()
      modifies this
      ensures Valid() && loaded && playerId == id && canJump == old(canJump) && characterLoaded == old(characterLoaded)
      ensures modelPos == StartingPos && bodyPos == Vec3(10.0, 11.0, 0.0) && bodyVel == Zero
      ensures modelQuat == old(modelQuat) && inputVelocity == old(inputVelocity)
    {
      modelPos := StartingPos;
      bodyPos := Vec3(modelPos.x, modelPos.y + BodyRadius, modelPos.z);
      bodyVel := Zero;
      playerId := id;
      loaded := true;
    }

    /** `_OnLoad(name, clip)` for one of the five state clips. */
    method OnAnimationLoaded(s: StateName, duration: real)
      requires Valid() && (fsm.current == null || duration > 0.0)
      modifies fsm
      ensures Valid() && fsm.animations == old(fsm.animations)[s := Animation(duration, NewAction)]
      ensures fsm.current == old(fsm.current) && fsm.states == old(fsm.states)
    {
      fsm.Bind(s, duration);
    }

    /** The loading manager's `onLoad`: enter the idle state, then report the character loaded. */
    method OnAnimationsLoaded()
      requires Valid() && loaded && fsm.Ready()
      modifies this, fsm
      ensures Valid() && fsm.Switched("idle") && fsm.current != null && fsm.current.kind == Idle && characterLoaded
      ensures Posed() == old(Posed()) && canJump == old(canJump) && loaded && playerId == old(playerId)
    {
      assert Name(Idle) in fsm.states;
      fsm.SetState("idle");
      characterLoaded := true;
    }

    /** The body's `collide` listener: a contact from below re-arms the jump. */
    method OnCollide(c: Contact)
      requires Valid()
      modifies this
      ensures Valid() && canJump == (old(canJump) || Grounds(c, playerId))
      ensures Posed() == old(Posed()) && loaded == old(loaded) && characterLoaded == old(characterLoaded)
      ensures playerId == old(playerId) && inputVelocity == old(inputVelocity)
    {
      var normal := if c.bi == playerId then c.ni.Negated() else c.ni;
      if normal.y > 0.5 {
        canJump := true;
      }
    }

    /** `ResetPlayer`: back to the starting point, at rest and unrotated. */
    method ResetPlayer()
      requires loaded
      modifies this
      ensures Posed() == ResetPose
      ensures canJump == old(canJump) && loaded && characterLoaded == old(characterLoaded)
      ensures playerId == old(playerId) && inputVelocity == old(inputVelocity)
    {
      modelPos := StartingPos;
      bodyPos := Vec3(modelPos.x, modelPos.y + BodyRadius, modelPos.z);
      bodyVel := Zero;
      modelQuat := Identity;
    }

    /** `Enable`: the input's `Enable`. */
    method Enable()
      modifies input
      ensures input.keys == Released && !input.canJump
    {
      input.Enable();
    }

    /** `Disable`: the input's `Disable`; the controller's own `canJump` is kept. */
    method Disable()
      modifies input
      ensures input.keys == Released && !input.canJump
    {
      input.Disable();
    }

    /**
     * `Update(timeInSeconds)`: nothing before the model has loaded;
     * afterwards one state-machine tick on the current keys and one `Tick`.
     */
    method Update(dt: real, yaw: Yaw, rotate: Rotation)
      requires Valid()
      modifies this, input, fsm
      ensures Valid()
      ensures !old(loaded) ==>
        Posed() == old(Posed()) && canJump == old(canJump) && inputVelocity == old(inputVelocity) &&
        input.keys == old(input.keys) && input.canJump == old(input.canJump) && fsm.current == old(fsm.current) &&
        fsm.animations == old(fsm.animations) && fsm.hooks == old(fsm.hooks)
      ensures !old(loaded) ==> unchanged(this, input, fsm)
      ensures old(loaded) ==>
        var s := Tick(old(Posed()), old(input.keys), old(canJump), dt, yaw, rotate);
        Posed() == s.pose && input.keys == s.keys && canJump == s.canJump && inputVelocity == s.inputVelocity &&
        input.canJump == old(canJump)
      ensures old(loaded) ==> fsm.Stepped(old(input.keys))
      ensures loaded == old(loaded) && characterLoaded == old(characterLoaded) && playerId == old(playerId)
      ensures fsm.states == old(fsm.states)
    {
      if !loaded {
        return;
      }
      inputVelocity := Zero;
      input.canJump := canJump;
      fsm.Update(input.keys);
      Move(dt, yaw, rotate);
    }

    /** The part of `Update` after the state-machine tick. */
    method Move(dt: real, yaw: Yaw, rotate: Rotation)
      requires loaded
      modifies this, input
      ensures var s := Tick(old(Posed()), old(input.keys), old(canJump), dt, yaw, rotate);
        Posed() == s.pose && input.keys == s.keys && canJump == s.canJump && inputVelocity == s.inputVelocity
      ensures input.canJump == old(input.canJump) && loaded && characterLoaded == old(characterLoaded)
      ensures playerId == old(playerId)
    {
      var keys := input.keys;
      ghost var p0, j0 := Posed(), canJump;
      var iv := RequestVelocity(keys, VelocityFactor, dt);
      var r := TurnModel(modelQuat, keys, dt, yaw);
      var vel := bodyVel;
      if canJump && keys.space {
        vel := vel.(y := JumpVelocity);
        input.keys := keys.(space := false);
        canJump := false;
      }
      modelQuat := r;
      iv := rotate(r, iv);
      inputVelocity := iv;
      vel := vel.(x := vel.x * Damping, z := vel.z * Damping);
      vel := vel.(x := vel.x + iv.x, z := vel.z + iv.z);
      var model := Vec3(bodyPos.x, bodyPos.y - BodyRadius, bodyPos.z);
      assert Steer(p0, keys, j0, dt, Tune, yaw, rotate).pose == Pose(p0.bodyPos, vel, model, r);
      bodyVel, modelPos := vel, model;
      if bodyPos.y < FallLimit {
        ResetPlayer();
      }
    }
  }
}
