/**
 * The earlier kinematic `CharacterController` of src/movement.js: the
 * controller keeps its own velocity, brakes it every tick, accelerates it
 * from the keys, turns the model, moves the model along its own heading and
 * drags the physics body's x and z along, leaving the body's height to the
 * physics engine and standing the model 3 below it.
 *
 * `applyQuaternion` followed by `normalize` is the function parameter
 * `heading`, about which nothing is assumed.
 */
module Movement {
  import opened Base
  import opened Input
  import opened Locomotion
  import opened Steering

  /** `_decceleration`. */
  const Braking: Vec3 := Vec3(-0.0005, -0.0001, -5.0)
  /** `_acceleration`. */
  const Thrust: Vec3 := Vec3(1.0, 0.25, 50.0)
  /** The body's centre sits 3 above the model (the radius of its sphere). */
  const BodyOffset: real := 3.0

  /** The controller's velocity and the positions and orientation it keeps. */
  datatype Rig = Rig(velocity: Vec3, position: Vec3, modelPos: Vec3, modelQuat: Quat, bodyPos: Vec3)

  /**
   * The braking step: x loses `0.0005 * x * dt`, y is untouched, and z
   * loses `5 * z * dt`, clamped so that it never loses more than it has.
   */
  function Braked(v: Vec3, dt: real): Vec3 {
    var frame := Vec3(v.x * Braking.x, 0.0, v.z * Braking.z).Scaled(dt);
    var fz := Sign(frame.z) * Min(Abs(frame.z), Abs(v.z));
    v.Plus(frame.(z := fz))
  }

  /**
   * For a non-negative time step braking keeps y, scales x by
   * `1 - 0.0005 * dt`, and moves z toward zero without crossing it; a step
   * of 0.2 s or longer stops z entirely.
   */
  lemma {:induction false} BrakingStopsWithoutReversing(v: Vec3, dt: real)
    requires dt >= 0.0
    ensures var b := Braked(v, dt);
      b.y == v.y && b.x == v.x * (1.0 - 0.0005 * dt) &&
      (v.z >= 0.0 ==> 0.0 <= b.z <= v.z) && (v.z <= 0.0 ==> v.z <= b.z <= 0.0) &&
      (5.0 * dt >= 1.0 ==> b.z == 0.0)
  {
    var fz := v.z * Braking.z * dt;
    assert fz == -(5.0 * dt * v.z);
    if v.z > 0.0 && dt > 0.0 {
      assert 5.0 * dt * v.z > 0.0;
      assert 5.0 * dt >= 1.0 ==> 5.0 * dt * v.z >= v.z;
    } else if v.z < 0.0 && dt > 0.0 {
      assert 5.0 * dt * v.z < 0.0;
      assert 5.0 * dt >= 1.0 ==> 5.0 * dt * v.z <= v.z;
    }
  }

  /** `acc`: `_acceleration`, doubled with shift held. */
  function Acc(keys: Keys): Vec3 {
    if keys.shift then Thrust.Scaled(2.0) else Thrust
  }

  /** The key step: forward adds `acc.z * dt` to z, backward takes it away; x and y are never driven. */
  function Accelerated(v: Vec3, keys: Keys, dt: real): Vec3 {
    var a := Acc(keys).z * dt;
    var z1 := if keys.forward then v.z + a else v.z;
    var z2 := if keys.backward then z1 - a else z1;
    v.(z := z2)
  }

  /**
   * Forward and backward together cancel, x and y are unaffected, and
   * shift doubles the push: 50 units per second squared, 100 with shift.
   */
  lemma AcceleratedByKeys(v: Vec3, keys: Keys, dt: real)
    ensures var r := Accelerated(v, keys, dt);
      r.x == v.x && r.y == v.y &&
      (keys.forward == keys.backward ==> r == v) &&
      (keys.forward && !keys.backward ==> r.z == v.z + (if keys.shift then 100.0 else 50.0) * dt) &&
      (!keys.forward && keys.backward ==> r.z == v.z - (if keys.shift then 100.0 else 50.0) * dt)
  {
  }

  /**
   * The turn: `4 * PI * dt * _acceleration.y` per turn key, with the
   * unscaled acceleration, so shift does not speed up turning; it is the
   * same pi-radians-per-second turn the newer controllers make.
   */
  function Turn(q: Quat, keys: Keys, dt: real, yaw: Yaw): (r: Quat)
    ensures r == Turned(q, keys, dt, yaw)
  {
    var afterLeft := if keys.left then yaw(q, 4.0 * Pi * dt * Thrust.y) else q;
    if keys.right then yaw(afterLeft, 4.0 * -Pi * dt * Thrust.y) else afterLeft
  }

  /**
   * The model's new position: moved `v.z * dt` along its heading and
   * `v.x * dt` sideways, then put 3 below the body's height `bodyY`.
   */
  function Placed(modelPos: Vec3, bodyY: real, v: Vec3, q: Quat, dt: real, heading: Rotation): Vec3 {
    var forward := heading(q, Vec3(0.0, 0.0, 1.0)).Scaled(v.z * dt);
    var sideways := heading(q, Vec3(1.0, 0.0, 0.0)).Scaled(v.x * dt);
    modelPos.Plus(forward).Plus(sideways).(y := bodyY - BodyOffset)
  }

  /** One `Update` of a loaded controller. */
  function Tick(r: Rig, keys: Keys, dt: real, yaw: Yaw, heading: Rotation): Rig {
    var v := Accelerated(Braked(r.velocity, dt), keys, dt);
    var q := Turn(r.modelQuat, keys, dt, yaw);
    var model := Placed(r.modelPos, r.bodyPos.y, v, q, dt, heading);
    Rig(v, model, model, q, Vec3(model.x, r.bodyPos.y, model.z))
  }

  /**
   * After a tick the body shares the model's x and z, keeps its own height,
   * the model stands 3 below it, and `Position` reports the model's
   * position.
   */
  lemma BodyFollowsModel(r: Rig, keys: Keys, dt: real, yaw: Yaw, heading: Rotation)
    ensures var n := Tick(r, keys, dt, yaw, heading);
      n.bodyPos.x == n.modelPos.x && n.bodyPos.z == n.modelPos.z && n.bodyPos.y == r.bodyPos.y &&
      n.modelPos.y == r.bodyPos.y - 3.0 && n.position == n.modelPos
  {
  }

  /** A controller at rest with no movement key held stays where it is (up to the body's height). */
  lemma {:induction false} AtRestStaysPut(r: Rig, keys: Keys, dt: real, yaw: Yaw, heading: Rotation)
    requires r.velocity == Zero && keys.forward == keys.backward
    ensures var n := Tick(r, keys, dt, yaw, heading);
      n.velocity == Zero && n.modelPos.x == r.modelPos.x && n.modelPos.z == r.modelPos.z
  {
    var v := Accelerated(Braked(r.velocity, dt), keys, dt);
    assert Braked(r.velocity, dt) == Zero;
    AcceleratedByKeys(Zero, keys, dt);
    assert v == Zero;
    var q := Turn(r.modelQuat, keys, dt, yaw);
    assert heading(q, Vec3(0.0, 0.0, 1.0)).Scaled(v.z * dt) == Zero;
    assert heading(q, Vec3(1.0, 0.0, 0.0)).Scaled(v.x * dt) == Zero;
  }

  class Controller {
    /** Whether the model has loaded (`_target` is set). */
    var loaded: bool
    var velocity: Vec3
    /** `_position`, what the `Position` getter reports. */
    var position: Vec3
    var modelPos: Vec3
    var modelQuat: Quat
    var bodyPos: Vec3
    const input: ControllerInput
    const fsm: FSM

    function Rigged(): Rig
      reads this
    {
      Rig(velocity, position, modelPos, modelQuat, bodyPos)
    }

    ghost predicate Valid()
      reads this, fsm
    {
      fsm.Valid()
    }

    /** `_Init`: at rest, nothing loaded, a fresh state machine with no state. */
    constructor ()
      ensures Valid() && !loaded && velocity == Zero && position == Zero && fresh(input) && fresh(fsm)
      ensures input.keys == Released && fsm.current == null && fsm.animations == map[] && fsm.states == Registry
    {
      loaded := false;
      velocity := Zero;
      position := Zero;
      modelPos, modelQuat, bodyPos := Zero, Identity, Zero;
      input := new ControllerInput();
      fsm := new FSM();
    }

    /** The model loader's callback: the model on top of the planet, the body 3 above it. */
    method OnModelLoaded(planetRadius: real)
      modifies this
      ensures loaded && modelPos == Vec3(0.0, planetRadius, 0.0) && bodyPos == Vec3(0.0, planetRadius + 3.0, 0.0)
      ensures velocity == old(velocity) && position == old(position) && modelQuat == old(modelQuat)
    {
      modelPos := Vec3(0.0, planetRadius, 0.0);
      bodyPos := Vec3(modelPos.x, modelPos.y + BodyOffset, modelPos.z);
      loaded := true;
    }

    /** `_OnLoad(name, clip)` for one of the five state clips. */
    method OnAnimationLoaded(s: StateName, duration: real)
      requires Valid() && (fsm.current == null || duration > 0.0)
      modifies fsm
      ensures Valid() && fsm.animations == old(fsm.animations)[s := Animation(duration, NewAction)]
      ensures fsm.current == old(fsm.current) && fsm.states == old(fsm.states)
    {
      fsm.Bind(s, duration);
    }

    /** The loading manager's `onLoad`: enter the idle state. */
    method OnAnimationsLoaded()
      requires Valid() && fsm.Ready()
      modifies fsm
      ensures Valid() && fsm.Switched("idle") && fsm.current != null && fsm.current.kind == Idle
    {
      assert Name(Idle) in fsm.states;
      fsm.SetState("idle");
    }

    /**
     * `Update(timeInSeconds)`: nothing before the model has loaded;
     * afterwards one state-machine tick on the keys and one `Tick`.
     */
    method Update(dt: real, yaw: Yaw, heading: Rotation)
      requires Valid()
      modifies this, fsm
      ensures Valid() && loaded == old(loaded) && fsm.states == old(fsm.states)
      ensures !old(loaded) ==>
        Rigged() == old(Rigged()) && fsm.current == old(fsm.current) && fsm.animations == old(fsm.animations) &&
        fsm.hooks == old(fsm.hooks)
      ensures old(loaded) ==> Rigged() == Tick(old(Rigged()), input.keys, dt, yaw, heading)
      ensures old(loaded) ==> fsm.Stepped(input.keys)
    {
      if !loaded {
        return;
      }
      fsm.UpdateElapsed(dt, input.keys);
      Move(dt, yaw, heading);
    }

    /** The part of `Update` after the state-machine tick. */
    method Move(dt: real, yaw: Yaw, heading: Rotation)
      modifies this
      ensures Rigged() == Tick(old(Rigged()), input.keys, dt, yaw, heading) && loaded == old(loaded)
    {
      Brake(dt);
      Push(dt, yaw);
      Advance(dt, heading);
    }

    /** The braking step on `_velocity`. */
    method Brake(dt: real)
      modifies this
      ensures velocity == Braked(old(velocity), dt)
      ensures position == old(position) && modelPos == old(modelPos) && modelQuat == old(modelQuat)
      ensures bodyPos == old(bodyPos) && loaded == old(loaded)
    {
      var v := velocity;
      var frame := Vec3(v.x * Braking.x, 0.0, v.z * Braking.z).Scaled(dt);
      frame := frame.(z := Sign(frame.z) * Min(Abs(frame.z), Abs(v.z)));
      velocity := v.Plus(frame);
    }

    /** The key step on the velocity and the turn of the model. */
    method Push(dt: real, yaw: Yaw)
      modifies this
      ensures velocity == Accelerated(old(velocity), input.keys, dt)
      ensures modelQuat == Turn(old(modelQuat), input.keys, dt, yaw)
      ensures position == old(position) && modelPos == old(modelPos) && bodyPos == old(bodyPos) && loaded == old(loaded)
    {
      var keys := input.keys;
      var v := velocity;
      var q := modelQuat;
      var acc := Thrust;
      if keys.shift {
        acc := acc.Scaled(2.0);
      }
      if keys.forward {
        v := v.(z := v.z + acc.z * dt);
      }
      if keys.backward {
        v := v.(z := v.z - acc.z * dt);
      }
      if keys.left {
        q := yaw(q, 4.0 * Pi * dt * Thrust.y);
      }
      if keys.right {
        q := yaw(q, 4.0 * -Pi * dt * Thrust.y);
      }
      modelQuat := q;
      velocity := v;
    }

    /** Move the model along its heading and drag the body's x and z along. */
    method Advance(dt: real, heading: Rotation)
      modifies this
      ensures var model := Placed(old(modelPos), old(bodyPos).y, old(velocity), old(modelQuat), dt, heading);
        modelPos == model && position == model && bodyPos == Vec3(model.x, old(bodyPos).y, model.z)
      ensures velocity == old(velocity) && modelQuat == old(modelQuat) && loaded == old(loaded)
    {
      var forward := heading(modelQuat, Vec3(0.0, 0.0, 1.0));
      var sideways := heading(modelQuat, Vec3(1.0, 0.0, 0.0));
      sideways := sideways.Scaled(velocity.x * dt);
      forward := forward.Scaled(velocity.z * dt);
      var model := modelPos.Plus(forward).Plus(sideways);
      model := model.(y := bodyPos.y - BodyOffset);
      modelPos := model;
      position := model;
      bodyPos := bodyPos.(x := model.x, z := model.z);
    }
  }
}
