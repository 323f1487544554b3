/**
 * The locomotion finite-state machine of src/characterAnimations.ts
 * (`FiniteStateMachine`, `CharacterFSM` and the five state classes), of
 * which built/characterAnimations.js and the inline copy at the end of
 * src/movement.js are line-for-line the same program.
 *
 * The source registers a class per state name and instantiates it on every
 * transition. The model keeps that shape: a registry from names to state
 * kinds, a fresh `LocomotionState` object per transition, and the
 * transition choice each state class makes in its `Update` as the pure
 * function `Requested`. An animation action is the record of the fields
 * `Enter` writes; the animation mixer itself is not modelled.
 */
module Locomotion {
  import opened Base
  import opened Input

  datatype StateName = Idle | Walk | Run | WalkBack | RunBack

  /** The `Name` getter of each state class. */
  function Name(s: StateName): string {
    match s
    case Idle => "idle"
    case Walk => "walk"
    case Run => "run"
    case WalkBack => "walkback"
    case RunBack => "runback"
  }

  lemma NameInjective(s: StateName, t: StateName)
    ensures Name(s) == Name(t) <==> s == t
  {
  }

  /** The registrations `CharacterFSM._Init` makes. */
  const Registry: map<string, StateName> :=
    map["idle" := Idle, "walk" := Walk, "run" := Run, "walkback" := WalkBack, "runback" := RunBack]

  /**
   * The `SetState` call a state's `Update` makes for the given keys, if any.
   * Only forward, backward and shift are read.
   */
  function Requested(s: StateName, keys: Keys): Option<StateName> {
    match s
    case Idle =>
      if keys.forward then Some(Walk)
      else if keys.backward then Some(WalkBack)
      else None
    case Walk =>
      if keys.forward then (if keys.shift then Some(Run) else None)
      else Some(Idle)
    case Run =>
      if keys.forward then (if !keys.shift then Some(Walk) else None)
      else Some(Idle)
    case WalkBack =>
      if keys.backward then (if keys.shift then Some(RunBack) else None)
      else Some(Idle)
    case RunBack =>
      if keys.backward then (if !keys.shift then Some(WalkBack) else None)
      else Some(Idle)
  }

  /** The state after one tick. */
  function Next(s: StateName, keys: Keys): StateName {
    match Requested(s, keys)
    case None => s
    case Some(n) => n
  }

  /**
   * The state the held keys call for, defined independently of the
   * transition table: forward (walk, or run with shift) takes priority over
   * backward (walkback, or runback with shift); no key means idle.
   */
  function Target(keys: Keys): StateName {
    if keys.forward then (if keys.shift then Run else Walk)
    else if keys.backward then (if keys.shift then RunBack else WalkBack)
    else Idle
  }

  /** A state only ever asks for a different state, so `SetState` never takes its early return here. */
  lemma RequestedIsAMove(s: StateName, keys: Keys)
    ensures Requested(s, keys).Some? ==> Requested(s, keys).value != s
  {
  }

  /** Idle: forward goes to walk even with backward held; backward alone to walkback; else stay. */
  lemma IdleTable(keys: Keys)
    ensures keys.forward ==> Next(Idle, keys) == Walk
    ensures !keys.forward && keys.backward ==> Next(Idle, keys) == WalkBack
    ensures !keys.forward && !keys.backward ==> Next(Idle, keys) == Idle
  {
  }

  /** Walk and run: releasing forward always means idle; shift chooses run over walk. */
  lemma ForwardTable(keys: Keys)
    ensures !keys.forward ==> Next(Walk, keys) == Idle && Next(Run, keys) == Idle
    ensures keys.forward ==> Next(Walk, keys) == (if keys.shift then Run else Walk)
    ensures keys.forward ==> Next(Run, keys) == (if keys.shift then Run else Walk)
  {
  }

  /** Walkback and runback mirror walk and run on the backward key. */
  lemma BackwardTable(keys: Keys)
    ensures !keys.backward ==> Next(WalkBack, keys) == Idle && Next(RunBack, keys) == Idle
    ensures keys.backward ==> Next(WalkBack, keys) == (if keys.shift then RunBack else WalkBack)
    ensures keys.backward ==> Next(RunBack, keys) == (if keys.shift then RunBack else WalkBack)
  {
  }

  /** Left, right and space never influence the transition. */
  lemma NextIgnoresTurnAndJump(s: StateName, keys: Keys, left: bool, right: bool, space: bool)
    ensures Next(s, keys.(left := left, right := right, space := space)) == Next(s, keys)
  {
  }

  /**
   * With the keys held steady, and not forward and backward together, the
   * machine reaches `Target(keys)` within three ticks and then stays there
   * (walk with backward and shift held goes idle, walkback, runback).
   */
  lemma {:induction false} Settles(s: StateName, keys: Keys)
    requires !(keys.forward && keys.backward)
    ensures Next(Next(Next(s, keys), keys), keys) == Target(keys)
    ensures Next(Target(keys), keys) == Target(keys)
  {
    match s
    case Idle =>
    case Walk =>
    case Run =>
    case WalkBack =>
    case RunBack =>
  }

  /** Under such keys the stable states are exactly the target. */
  lemma StableIffTarget(s: StateName, keys: Keys)
    requires !(keys.forward && keys.backward)
    ensures Next(s, keys) == s <==> s == Target(keys)
  {
  }

  /**
   * With forward and backward both held the machine keeps its direction:
   * idle and the forward states settle on walk or run, the backward states
   * stay backward, because each state only checks its own key.
   */
  lemma BothHeldKeepsDirection(s: StateName, keys: Keys)
    requires keys.forward && keys.backward
    ensures s in {WalkBack, RunBack} ==> Next(s, keys) == (if keys.shift then RunBack else WalkBack)
    ensures s !in {WalkBack, RunBack} ==> Next(Next(s, keys), keys) == Target(keys)
  {
  }

  // ---- Animation actions and the Enter rule ----

  /** The cross-fade `crossFadeFrom(prev, duration, warp)` asks the mixer for. */
  datatype Fade = Fade(from: StateName, duration: real, warp: bool)

  /**
   * The fields of a three.js `AnimationAction` that `Enter` writes: the
   * playback cursor `time`, the effective time-scale and weight, `enabled`,
   * whether `play()` was called, and the last cross-fade requested.
   */
  datatype Action = Action(time: real, timeScale: real, weight: real, enabled: bool, playing: bool, fade: Option<Fade>)

  /** What `mixer.clipAction(clip)` hands out: at the start, full weight, not playing. */
  const NewAction: Action := Action(0.0, 1.0, 1.0, true, false, None)

  /** One entry of the proxy's `_animations` table: the clip's duration and its action. */
  datatype Animation = Animation(duration: real, action: Action)

  /** Moving between these two keeps the legs in phase instead of restarting the clip. */
  predicate InPhase(prev: StateName, cur: StateName) {
    (prev == Run && cur == Walk) || (prev == Walk && cur == Run) ||
    (prev == RunBack && cur == WalkBack) || (prev == WalkBack && cur == RunBack)
  }

  /**
   * What `Enter(prev)` reads: the entered state's entry and the
   * predecessor's, and only the phase sync divides by the predecessor's
   * clip duration.
   */
  predicate EnterReady(anims: map<StateName, Animation>, me: StateName, prev: Option<StateName>) {
    me in anims &&
    (prev.Some? ==> prev.value in anims && (InPhase(prev.value, me) ==> anims[prev.value].duration > 0.0))
  }

  /** The `_animations` table after `Enter(prev)` of state `me`. */
  function Entered(anims: map<StateName, Animation>, me: StateName, prev: Option<StateName>): map<StateName, Animation>
    requires EnterReady(anims, me, prev)
  {
    anims[me := anims[me].(action := EnteredAction(anims, me, prev))]
  }

  /** The entered state's action after `Enter(prev)`. */
  function EnteredAction(anims: map<StateName, Animation>, me: StateName, prev: Option<StateName>): Action
    requires EnterReady(anims, me, prev)
  {
    var cur := anims[me].action;
    if prev.None? then cur.(playing := true)
    else
      var p := prev.value;
      var synced :=
        if InPhase(p, me) then cur.(enabled := true, time := anims[p].action.time * (anims[me].duration / anims[p].duration))
        else cur.(enabled := true, time := 0.0, timeScale := 1.0, weight := 1.0);
      synced.(fade := Some(Fade(p, 0.5, true)), playing := true)
  }

  /** Entering keeps every clip duration and touches no action but the entered state's own. */
  lemma EnteredTouchesOnlyOwnAction(anims: map<StateName, Animation>, me: StateName, prev: Option<StateName>, s: StateName)
    requires EnterReady(anims, me, prev)
    ensures var r := Entered(anims, me, prev);
      r.Keys == anims.Keys && (s in anims ==> r[s].duration == anims[s].duration) &&
      (s != me && s in anims ==> r[s] == anims[s])
  {
  }

  /** `play()` is called on every entry; the first entry (no predecessor) does nothing else. */
  lemma EnteredPlays(anims: map<StateName, Animation>, me: StateName, prev: Option<StateName>)
    requires EnterReady(anims, me, prev)
    ensures Entered(anims, me, prev)[me].action.playing
    ensures prev.None? ==> Entered(anims, me, prev)[me].action == anims[me].action.(playing := true)
  {
  }

  /**
   * With a predecessor, the action is enabled and cross-faded from the
   * predecessor's over 0.5 s with warp; the cursor is phase-synced between
   * walk and run (or walkback and runback) and otherwise reset to time 0,
   * time-scale 1 and weight 1. Idle therefore always resets.
   */
  lemma EnteredFromPredecessor(anims: map<StateName, Animation>, me: StateName, p: StateName)
    requires EnterReady(anims, me, Some(p))
    ensures var a := Entered(anims, me, Some(p))[me].action;
      a.enabled && a.fade == Some(Fade(p, 0.5, true)) &&
      (InPhase(p, me) ==> a.time == anims[p].action.time * (anims[me].duration / anims[p].duration)) &&
      (!InPhase(p, me) ==> a.time == 0.0 && a.timeScale == 1.0 && a.weight == 1.0) &&
      (me == Idle ==> a.time == 0.0)
  {
  }

  /**
   * Phase sync keeps the fraction of the cycle: the new cursor is as far
   * through its clip as the old cursor was through the predecessor's.
   */
  lemma {:induction false} PhaseSyncKeepsCycleFraction(anims: map<StateName, Animation>, me: StateName, p: StateName)
    requires EnterReady(anims, me, Some(p)) && InPhase(p, me) && anims[me].duration > 0.0
    ensures Entered(anims, me, Some(p))[me].action.time / anims[me].duration
         == anims[p].action.time / anims[p].duration
  {
    var d, pd, pt := anims[me].duration, anims[p].duration, anims[p].action.time;
    var t := Entered(anims, me, Some(p))[me].action.time;
    assert t == pt * (d / pd);
    var q := pt / pd;
    assert t == q * d;
    CancelScale(t, q, d);
  }

  lemma CancelScale(t: real, q: real, d: real)
    requires d != 0.0 && t == q * d
    ensures t / d == q
  {
  }

  // ---- How the controllers' calls reach a state's Update ----

  /** A JavaScript argument value, as far as the dispatch cares. */
  datatype Value = Number(n: real) | KeyRecord(keys: Keys) | Undefined

  /** What a machine's `Update` call comes to. */
  datatype Outcome = NoState | Moved(next: StateName) | TypeError

  /** JavaScript parameter binding: a missing argument is `undefined`. */
  function Param(args: seq<Value>, i: nat): Value {
    if i < |args| then args[i] else Undefined
  }

  /**
   * A state's `Update` on whatever arrived as its input: every state reads
   * `input._keys` first, which only a key record has; on a number that is
   * `undefined` and on `undefined` the read itself fails, so both throw.
   */
  function StateUpdate(s: StateName, input: Value): (o: Outcome)
    ensures o == TypeError <==> !input.KeyRecord?
    ensures input.KeyRecord? ==> o == Moved(Next(s, input.keys))
  {
    match input
    case KeyRecord(keys) => Moved(Next(s, keys))
    case _ => TypeError
  }

  /** `Update(input)` of src/characterAnimations.ts, called with the argument list `args`. */
  function OneParamUpdate(current: Option<StateName>, args: seq<Value>): Outcome {
    match current
    case None => NoState
    case Some(s) => StateUpdate(s, Param(args, 0))
  }

  /** `Update(timeElapsed, input)` of built/characterAnimations.js and src/movement.js. */
  function TwoParamUpdate(current: Option<StateName>, args: seq<Value>): Outcome {
    match current
    case None => NoState
    case Some(s) => StateUpdate(s, Param(args, 1))
  }

  /**
   * The calls as written: src/character.ts passes `(timeInSeconds, input)`
   * to the one-parameter machine and built/character.js passes `(input)` to
   * the two-parameter one, so once a state is current both throw; only
   * src/movement.js passes the arguments its machine expects.
   */
  lemma ControllerCallsAsWritten(s: StateName, dt: real, keys: Keys)
    ensures OneParamUpdate(Some(s), [Number(dt), KeyRecord(keys)]) == TypeError
    ensures TwoParamUpdate(Some(s), [KeyRecord(keys)]) == TypeError
    ensures TwoParamUpdate(Some(s), [Number(dt), KeyRecord(keys)]) == Moved(Next(s, keys))
  {
  }

  /**
   * The calls as intended: the key record in the slot each machine reads
   * gives the transition `FSM.Update` performs.
   */
  lemma ControllerCallsCorrected(s: StateName, dt: real, keys: Keys)
    ensures OneParamUpdate(Some(s), [KeyRecord(keys)]) == Moved(Next(s, keys))
    ensures TwoParamUpdate(Some(s), [Number(dt), KeyRecord(keys)]) == Moved(Next(s, keys))
    ensures OneParamUpdate(None, [KeyRecord(keys)]) == NoState
  {
  }

  // ---- The machine ----

  /** An instance of one of the state classes; a fresh one is made on every transition. */
  class LocomotionState {
    const kind: StateName

    constructor (kind: StateName)
      ensures this.kind == kind
    {
      this.kind := kind;
    }
  }

  /** The `Exit` and `Enter` calls the machine makes, in order (`Exit` itself does nothing). */
  datatype Hook = ExitCall(left: StateName) | EnterCall(entered: StateName, prev: Option<StateName>)

  class FSM {
    /** `_states`: the state class registered under each name. */
    var states: map<string, StateName>
    /** `_currentState`, null until the first `SetState`. */
    var current: LocomotionState?
    /** The proxy's `_animations` table, filled in as the clips load. */
    var animations: map<StateName, Animation>
    ghost var hooks: seq<Hook>

    /** Exactly the five registrations of `_Init`: every state kind under its own name. */
    ghost predicate Registered()
      reads this
    {
      states == Registry
    }

    /** All five clips are loaded, with positive durations. */
    ghost predicate Ready()
      reads this
    {
      forall s :: s in animations && animations[s].duration > 0.0
    }

    ghost predicate Valid()
      reads this
    {
      Registered() && (current != null ==> Ready())
    }

    /**
     * What `SetState(name)` does: nothing at all when the current state
     * already has that name; otherwise the old state exits, a fresh instance
     * of the registered kind is installed and entered with the old state
     * (none the first time).
     */
    twostate predicate Switched(name: string)
      requires name in old(states) && old(Ready())
      reads this
    {
      states == old(states) && current != null &&
      (old(current) != null && Name(old(current).kind) == name ==>
         current == old(current) && animations == old(animations) && hooks == old(hooks)) &&
      (!(old(current) != null && Name(old(current).kind) == name) ==>
         fresh(current) && current.kind == states[name] &&
         var prev := if old(current) == null then None else Some(old(current).kind);
         animations == Entered(old(animations), states[name], prev) &&
         hooks == old(hooks) + (if prev.None? then [] else [ExitCall(prev.value)]) + [EnterCall(states[name], prev)])
    }

    /**
     * What one `Update` on `keys` does: nothing without a current state;
     * otherwise the state moves to `Next`, through one exit and one entry of
     * a fresh instance when its `Update` asks for a change, and with nothing
     * touched when it does not.
     */
    twostate predicate Stepped(keys: Keys)
      requires old(Valid())
      reads this
    {
      states == old(states) &&
      (old(current) == null ==> current == null && animations == old(animations) && hooks == old(hooks)) &&
      (old(current) != null ==> current != null && current.kind == Next(old(current).kind, keys)) &&
      (old(current) != null && Requested(old(current).kind, keys).None? ==>
         current == old(current) && animations == old(animations) && hooks == old(hooks)) &&
      (old(current) != null && Requested(old(current).kind, keys).Some? ==>
         var p, n := old(current).kind, Requested(old(current).kind, keys).value;
         fresh(current) && animations == Entered(old(animations), n, Some(p)) &&
         hooks == old(hooks) + [ExitCall(p), EnterCall(n, Some(p))])
    }

    /** `CharacterFSM` construction: `_Init` registers the five states. */
    constructor ()
      ensures Valid() && states == Registry && current == null && animations == map[] && hooks == []
    {
      states := map[];
      current := null;
      animations := map[];
      hooks := [];
      new;
      AddState("idle", Idle);
      AddState("walk", Walk);
      AddState("run", Run);
      AddState("walkback", WalkBack);
      AddState("runback", RunBack);
      assert states == Registry;
    }

    /** `_AddState`: register (or re-register) a state class under a name. */
    method AddState(name: string, kind: StateName)
      modifies this
      ensures states == old(states)[name := kind]
      ensures current == old(current) && animations == old(animations) && hooks == old(hooks)
    {
      states := states[name := kind];
    }

    /** The loader's `_OnLoad`: record a loaded clip and its fresh action. */
    method Bind(s: StateName, duration: real)
      modifies this
      ensures animations == old(animations)[s := Animation(duration, NewAction)]
      ensures states == old(states) && current == old(current) && hooks == old(hooks)
    {
      animations := animations[s := Animation(duration, NewAction)];
    }

    /** The state's `Enter(prev)`: write the action fields, request the cross-fade, play. */
    method Enter(me: StateName, prev: Option<StateName>)
      requires EnterReady(animations, me, prev)
      modifies this
      ensures animations == Entered(old(animations), me, prev)
      ensures states == old(states) && current == old(current) && hooks == old(hooks) + [EnterCall(me, prev)]
    {
      var curAction := animations[me].action;
      if prev.Some? {
        var prevAnim := animations[prev.value];
        curAction := curAction.(enabled := true);
        if InPhase(prev.value, me) {
          var ratio := animations[me].duration / prevAnim.duration;
          curAction := curAction.(time := prevAnim.action.time * ratio);
        } else {
          curAction := curAction.(time := 0.0, timeScale := 1.0, weight := 1.0);
        }
        curAction := curAction.(fade := Some(Fade(prev.value, 0.5, true)));
      }
      curAction := curAction.(playing := true);
      assert curAction == EnteredAction(animations, me, prev);
      animations := animations[me := animations[me].(action := curAction)];
      hooks := hooks + [EnterCall(me, prev)];
    }

    /**
     * `SetState(name)`: nothing at all when the current state already has
     * that name; otherwise `Exit` the old state, install a fresh instance of
     * the registered kind and `Enter` it with the old state (none the first
     * time). An unregistered name makes the source throw; here it is a
     * precondition.
     */
    method SetState(name: string)
      requires name in states && Ready()
      modifies this
      ensures Switched(name)
    {
      var prevState := current;
      if prevState != null {
        if Name(prevState.kind) == name {
          return;
        }
        hooks := hooks + [ExitCall(prevState.kind)];
      }
      var state := new LocomotionState(states[name]);
      current := state;
      Enter(state.kind, if prevState == null then None else Some(prevState.kind));
    }

    /**
     * `Update(input)`: no-op without a current state; otherwise the current
     * state's `Update` makes at most one `SetState` call, so each tick takes
     * at most one transition, to `Next`.
     */
    method Update(keys: Keys)
      requires Valid()
      modifies this
      ensures Valid() && Stepped(keys)
    {
      if current != null {
        var request := Requested(current.kind, keys);
        if request.Some? {
          RequestedIsAMove(current.kind, keys);
          NameInjective(current.kind, request.value);
          SetState(Name(request.value));
        }
      }
    }

    /**
     * The two-argument `Update(timeElapsed, input)` of
     * built/characterAnimations.js and src/movement.js: the elapsed time is
     * ignored and the input forwarded.
     */
    method UpdateElapsed(timeElapsed: real, keys: Keys)
      requires Valid()
      modifies this
      ensures Valid() && Stepped(keys)
    {
      Update(keys);
    }
  }
}
