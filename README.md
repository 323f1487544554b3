# Around the World — a Dafny model of the game logic

Around the World is a small three.js / cannon-es browser game. The player
walks a character around an island. Meteors fall toward it, and each meteor
that lands somewhere other than on the player scores a point. This project
models the game's discrete logic and proves properties of it:

- **Locomotion state machine** (`Locomotion`). It has five states: idle, walk, run, walkback and runback.
  - `SetState` is idempotent for the current name. Otherwise it runs exit, then construct, then enter.
  - A pure transition table `Next(state, keys)` drives the states.
  - The animation entry rule keeps walk/run and walkback/runback in phase and resets every other entry.
  - It is modelled from src/characterAnimations.ts. The compiled copy in built/characterAnimations.js
    and the inline copy in src/movement.js have the same `SetState` and the same tables. They differ
    only in the `Update` signature, which `FSM.UpdateElapsed` models.
- **Keyboard input** (`Input`): the key-code → flag mapping, the key handlers, and
  `Enable`/`Disable` resetting the flags.
- **Character controllers**:
  - `Steering` holds the steering arithmetic shared by src/character.ts and built/character.js:
    the input velocity, the sprint factor, the turn keys, the edge-triggered jump and the
    contact test that grounds the player.
  - That arithmetic sits inside three classes:
    - `Character` models src/character.ts.
    - `BuiltCharacter` models built/character.js, with its 0.8 damping, `ResetPlayer`,
      `characterLoaded`, `Enable` and `Disable`.
    - `Movement` models the older src/movement.js, with its clamped deceleration and
      acceleration vectors.
- **Meteors**: `Meteors` models src/meteor.ts and `BuiltMeteors` models built/meteor.js. Both cover:
  - the radius;
  - the spawn and aim points;
  - the collide handler;
  - `update`, with its fall limit and its self-removal after a crash.
- **The game world** (`Game`), modelled from src/main.ts.
  - `_updateMeteors` is modelled with its in-place `splice` loop. That covers the points scored,
    the early return on a hit, the meteor that the post-splice `i++` skips, and the spawn rule.
  - `_Start`, `_GameOver`, the menu buttons, the frame callback and the `_Step` ordering are
    modelled too.
  - src/main.ts imports its `Meteor` from src/meteor.ts, so the world's meteors are
    `Meteors.Meteor`.
  - src/main.ts calls `Enable`, `Disable`, `ResetPlayer` and `characterLoaded`. Of the three
    controllers above (src/character.ts, built/character.js, src/movement.js), only
    built/character.js defines them, so the world's controller is
    `BuiltCharacter.Controller`.
- **Particles** (`Particles`), modelled from src/particles.ts:
  - the `LinearSpline` segment search and lerp;
  - the three fixed splines and their ranges;
  - the emission accumulator (75 particles per second, with the remainder below 1/75);
  - ageing and filtering by life;
  - the clamped drag;
  - the `Step`/`Delete` rule.

Numbers are Dafny `real`s. The model computes exactly where JavaScript rounds
to double precision, in constants such as 0.1, 0.8 and 1/75 and in sums such as
the emission accumulator's. Properties stated as equalities hold of exact
arithmetic; a browser's doubles meet them only up to rounding (see
"## Left out"). Quaternion operations (`applyQuaternion`, the yaw by
`setFromAxisAngle`) are the function-typed parameters `Rotation` and `Yaw`.
`Math.random` draws and `lookAt` orientations are plain parameters, as are the
`Math.sqrt`/`Math.cos`/`Math.sin` results together with the facts those
functions guarantee (`Meteors.Drawn`, `Particles.Drawn`).

Each stateful class method is proved against a pure function of the old
state: `Character.Tick`, `BuiltCharacter.Tick`, `Movement.Tick`,
`Meteors.Updated`, `Meteors.Collided`, `Locomotion.Next`,
`Locomotion.Entered`, `Game.Fates` / `Game.Survivors`, `Particles.Updated`,
`Particles.SplineValue` and so on. The properties the game relies on are
lemmas about those functions.

## Model

| member | source | states |
|---|---|---|
| Base.ClampedStepTowardZero | src/particles.ts:227-232 | subtracting `sign(v) * min(abs(d), abs(v))` moves v toward zero without crossing it, whatever d is |
| Input.KeyForCode | src/character.ts:239-266 | a key code names key k exactly when it is k's code (87 W, 65 A, 83 S, 68 D, 32 space, 16 shift), so the map is injective and has no other codes |
| Input.KeyFor | src/character.ts:239-266 | the flag a key code drives, if any: the `switch` cases 87, 65, 83, 68, 32 and 16 and no others; `KeyForCode` proves it is the inverse of `Code` |
| Input.Code | src/character.ts:239-266 | the key code of each flag (W, A, S, D, space, shift); distinct for distinct flags, by `KeyForCode` |
| Input.With | src/character.ts:239-266 | setting one flag changes that flag to the given value and leaves the other five as they were |
| Input.OnKey | src/character.ts:239-294 | after a key event each flag is the event's value if the code is that flag's code, and unchanged otherwise |
| Input.OtherCodesIgnored | src/character.ts:239-294 | a code that is none of the six leaves the key record unchanged |
| Input.ReleaseUndoesPress | src/character.ts:239-294 | pressing and then releasing a key that was up restores the record exactly |
| Input.ControllerInput.constructor | src/character.ts:225-237 | a fresh input has all six flags released and `canJump` false |
| Input.ControllerInput.KeyDown | src/character.ts:239-266 | `_onKeyDown` sets the flag of the pressed code and keeps `canJump` |
| Input.ControllerInput.KeyUp | src/character.ts:267-294 | `_onKeyUp` clears the flag of the released code and keeps `canJump` |
| Input.ControllerInput.Enable | built/character.js:182-194 | all six flags and `canJump` are reset to false |
| Input.ControllerInput.Disable | built/character.js:195-207 | all six flags and `canJump` are reset to false |
| Locomotion.NameInjective | src/characterAnimations.ts:47-53 | the five registered names are distinct: a name identifies its state |
| Locomotion.Requested | src/characterAnimations.ts:92-262 | the `SetState` call each state's `Update` makes for the keys, if any; `RequestedIsAMove` proves it never names the state itself, and the table lemmas below give its cases |
| Locomotion.Next | src/characterAnimations.ts:92-262 | the state after one tick; `Settles` and `StableIffTarget` relate it to the independently defined `Target` of the keys |
| Locomotion.Entered | src/characterAnimations.ts:79-251 | the animation table after a state's `Enter`; `EnteredTouchesOnlyOwnAction`, `EnteredPlays`, `EnteredFromPredecessor` and `PhaseSyncKeepsCycleFraction` state what it changes |
| Locomotion.RequestedIsAMove | src/characterAnimations.ts:92-262 | a state's `Update` only ever asks for a state other than itself |
| Locomotion.IdleTable | src/characterAnimations.ts:92-98 | idle goes to walk on forward, else to walkback on backward, else stays; forward wins |
| Locomotion.ForwardTable | src/characterAnimations.ts:132-222 | walk and run go to idle without forward, and otherwise to run with shift and to walk without it |
| Locomotion.BackwardTable | src/characterAnimations.ts:172-262 | walkback and runback mirror walk and run on the backward key |
| Locomotion.NextIgnoresTurnAndJump | src/characterAnimations.ts:92-262 | left, right and space never affect the transition |
| Locomotion.Settles | src/characterAnimations.ts:92-262 | with forward and backward not both held, three ticks on the same keys reach the state the keys ask for, and that state is a fixed point |
| Locomotion.StableIffTarget | src/characterAnimations.ts:92-262 | a state is stable under fixed keys exactly when it is the state those keys ask for |
| Locomotion.BothHeldKeepsDirection | src/characterAnimations.ts:92-262 | with both movement keys held, a backward state stays backward (sprinting with shift); any other state reaches the forward target in two ticks |
| Locomotion.EnteredTouchesOnlyOwnAction | src/characterAnimations.ts:79-251 | entering a state changes only its own action; the clips and their durations stay |
| Locomotion.EnteredPlays | src/characterAnimations.ts:79-251 | every entry calls `play()`; with no predecessor nothing else changes |
| Locomotion.EnteredFromPredecessor | src/characterAnimations.ts:110-128 | with a predecessor the action is enabled and cross-faded from it over 0.5 s with warp; an in-phase pair copies the time scaled by the duration ratio, any other pair resets time, time scale and weight, and idle always starts at time 0 |
| Locomotion.PhaseSyncKeepsCycleFraction | src/characterAnimations.ts:115-124 | the phase-sync rule keeps the fraction of the cycle played: new time / new duration equals old time / old duration |
| Locomotion.StateUpdate | src/characterAnimations.ts:92-98 | a state's `Update` reads `input._keys`: on a key record it moves by `Next`, and on anything else it throws |
| Locomotion.ControllerCallsAsWritten | src/character.ts:159 | the calls as written fail: `(dt, input)` to the one-parameter `Update` and `(input)` to the two-parameter one both throw, while the movement.js call succeeds |
| Locomotion.ControllerCallsCorrected | src/movement.js:101 | with matching arguments both FSM variants move by `Next`, and with no current state the call does nothing |
| Locomotion.LocomotionState.constructor | src/characterAnimations.ts:58-62 | a state instance records which state it is |
| Locomotion.FSM.constructor | src/characterAnimations.ts:40-54 | a new machine has the five states registered under their names, no current state and no clips |
| Locomotion.FSM.AddState | src/characterAnimations.ts:11-13 | `_AddState` registers the type under the name and changes nothing else |
| Locomotion.FSM.Bind | src/character.ts:100-108 | `_OnLoad` stores a fresh action for the clip in the animation table and changes nothing else |
| Locomotion.FSM.Enter | src/characterAnimations.ts:79-251 | a state's `Enter` sets the animation table to `Entered` of the old table and records the call |
| Locomotion.FSM.SetState | src/characterAnimations.ts:15-30 | for the current name nothing happens (no exit, no enter, same instance); otherwise the old state exits, a fresh instance of the registered type is installed and entered with the old state (none on the first call) |
| Locomotion.FSM.Update | src/characterAnimations.ts:32-36 | `Stepped(keys)`: with no current state nothing changes; when the state's `Update` asks for nothing, instance, animation table and hooks stay as they were; when it asks for `n`, a fresh instance of `n` is current, the table is `Entered(old table, n, Some(old state))`, and an exit of the old state then an enter of `n` are recorded |
| Locomotion.FSM.UpdateElapsed | built/characterAnimations.js:21-25 | the two-parameter `Update` ignores the elapsed time and behaves as `Update` |
| Steering.InputVelocity | src/character.ts:167-178 | the requested velocity has no x or y component |
| Steering.Steer | src/character.ts:157-192 | one steering step: turn, jump, rotated input velocity added to the damped horizontal velocity, model placed `bodyRadius` below the body; `JumpRule`, `NoDoubleJump` and `Coasting` state its properties |
| Steering.RequestVelocity | src/character.ts:157-178 | the assignments of `acc` and `inputVelocity` compute `InputVelocity` |
| Steering.InputVelocityDirection | src/character.ts:171-178 | backward gives `-(acc * base speed)` even when forward is held; forward alone gives `+acc * base speed`; neither gives zero |
| Steering.SprintTriples | built/character.js:140-149 | holding shift triples the requested velocity |
| Steering.TurnModel | src/character.ts:179-186 | the turn-key branches compute `Turned`: left by `TurnAngle(dt)` (4 pi dt times the 0.25 turn rate), then right by `-TurnAngle(dt)` |
| Steering.TurnDirections | src/character.ts:179-186 | for a yaw that adds angles, left turns by pi*dt, right by -pi*dt, and both or neither leave the orientation as it is; the rate 4 pi * 0.25 = pi per second is proved inside it |
| Steering.JumpRule | src/character.ts:188-192 | the jump fires exactly when `canJump` and space are both set, sets the vertical velocity to the jump velocity and clears both; otherwise neither flag nor the vertical velocity changes |
| Steering.NoDoubleJump | src/character.ts:188-192 | without a contact in between, a second step cannot jump again |
| Steering.Coasting | built/character.js:165-168 | with no movement key, a step only multiplies the horizontal velocity by the damping factor |
| Steering.GroundsSymmetric | src/character.ts:121-139 | the grounding test gives the same answer whichever way round the engine lists the two bodies |
| Steering.GroundsOnFloor | src/character.ts:121-139 | a contact normal from a floor grounds the player exactly when its y exceeds 0.5, whichever body comes first |
| Steering.Grounds | src/character.ts:121-139 | a contact grounds the player when the normal pointing out of the other body has y > 0.5; `GroundsSymmetric` and `GroundsOnFloor` state it |
| Character.TickPlacement | src/character.ts:194-209 | a player below y = -300 is put at (10, 1, 0), body and model, with velocity cleared; otherwise the body stays and the model stands 4 below it; the orientation follows the turn keys |
| Character.Tick | src/character.ts:157-209 | one loaded `Update` of src/character.ts: `Steer`, then the reset below -300; `TickPlacement`, `NoDamping` and `ForwardSpeed` state it |
| Character.NoDamping | src/character.ts:167-198 | this controller does not damp: with no movement key the horizontal velocity is kept |
| Character.ForwardSpeed | src/character.ts:42 | forward asks for 20 units per second, or 60 with shift |
| Character.Controller.constructor | src/character.ts:38-51 | the keys start released, there is no jump, and the machine is empty and not yet loaded |
| Character.Controller.OnModelLoaded | src/character.ts:61-84 | the model is at the starting point and the body is `bodyRadius` = 4 above it, at rest |
| Character.Controller.OnAnimationLoaded | src/character.ts:100-108 | the clip is stored in the machine's table |
| Character.Controller.OnAnimationsLoaded | src/character.ts:95-98 | `Switched("idle")`: the machine's current state is a fresh idle instance, the animation table becomes `Entered(old table, Idle, None)` (idle's action is `play()`ed) and an idle enter is recorded, with no exit since nothing was current before |
| Character.Controller.OnCollide | src/character.ts:121-139 | `canJump` becomes old `canJump` or `Grounds`: the handler only sets it, never clears it; it changes nothing else |
| Character.Controller.Update | src/character.ts:152-214 | before loading nothing changes (controller, input record with its `canJump`, and machine all unchanged); afterwards the machine takes `Stepped(keys)` on the current keys (the table, hooks and instance of `FSM.Update`), and pose, keys and flag become `Tick` of the old ones, with `input.canJump` copied from the controller first |
| Character.Controller.Move | src/character.ts:157-209 | the steps after the machine tick compute `Tick` of the old pose, keys and flag |
| BuiltCharacter.TickPlacement | built/character.js:165-175 | below y = -250 the player is reset to body (10, 11, 0), model (10, 3, 0), at rest and facing the initial direction; otherwise the body stays; the model is always 8 below the body |
| BuiltCharacter.Tick | built/character.js:137-175 | one loaded `Update` of built/character.js: `Steer` with damping 0.8, then `ResetPlayer` below -250; `TickPlacement` and `CoastingDecays` state it |
| BuiltCharacter.CoastingDecays | built/character.js:165-168 | with no movement key, n ticks leave the body where it is and scale the horizontal velocity by 0.8^n |
| BuiltCharacter.ForwardSpeed | built/character.js:23 | forward asks for 100 units per second, or 300 with shift |
| BuiltCharacter.Controller.constructor | built/character.js:19-30 | `characterLoaded` starts false; the keys are released and there is no jump |
| BuiltCharacter.Controller.OnModelLoaded | built/character.js:49-60 | the model is at (10, 3, 0) and the body is 8 above it, at rest; `characterLoaded` is not yet set |
| BuiltCharacter.Controller.OnAnimationLoaded | built/character.js:70-77 | the clip is stored in the machine's table |
| BuiltCharacter.Controller.OnAnimationsLoaded | built/character.js:66-69 | `Switched("idle")`: a fresh idle instance is current, the animation table becomes `Entered(old table, Idle, None)` and an idle enter is recorded; `characterLoaded` is set and the pose, `canJump` and player id are kept |
| BuiltCharacter.Controller.OnCollide | built/character.js:87-104 | `canJump` becomes old `canJump` or `Grounds`; nothing else changes |
| BuiltCharacter.Controller.ResetPlayer | built/character.js:115-122 | model at the starting point, body 8 above it, zero velocity, identity rotation |
| BuiltCharacter.Controller.Enable | built/character.js:123-125 | the input is reset: all flags and `input.canJump` false |
| BuiltCharacter.Controller.Disable | built/character.js:126-128 | the input is reset: all flags and `input.canJump` false |
| BuiltCharacter.Controller.Update | built/character.js:129-179 | before loading nothing changes (controller, input record with its `canJump`, and machine all unchanged); afterwards the machine takes `Stepped(keys)` on the old keys (table, hooks and instance as in `FSM.Update`), then pose, keys and flag become `Tick`, with damping 0.8 and the reset below -250 |
| BuiltCharacter.Controller.Move | built/character.js:137-175 | the steps after the machine tick compute `Tick` |
| Movement.BrakingStopsWithoutReversing | src/movement.js:103-113 | for dt >= 0, braking keeps y, scales x by 1 - 0.0005 dt, and moves z toward zero without crossing it; a step of 0.2 s or more stops z |
| Movement.Braked | src/movement.js:103-113 | the clamped braking step; `BrakingStopsWithoutReversing` states it |
| Movement.AcceleratedByKeys | src/movement.js:120-130 | forward adds `acc.z * dt` (50, or 100 with shift), backward subtracts it, both or neither leave the velocity as it is; x and y are untouched |
| Movement.Accelerated | src/movement.js:120-130 | the key step on the velocity; `AcceleratedByKeys` states it |
| Movement.Turn | src/movement.js:131-140 | the turn keys, at `acceleration.y` = 0.25, compute the same turn as the newer controller |
| Movement.BodyFollowsModel | src/movement.js:161-164 | the body's x and z follow the model, the model is 3 below the body, and `_position` mirrors the model |
| Movement.Placed | src/movement.js:144-164 | the model moved by the velocity along its heading and sideways, 3 below the body; `BodyFollowsModel` states it |
| Movement.Tick | src/movement.js:103-164 | one loaded `Update` of the rig: brake, accelerate, turn, place; `AtRestStaysPut` and the rows above state it |
| Movement.AtRestStaysPut | src/movement.js:103-164 | at rest, with forward and backward equal, the velocity stays zero and the model does not move horizontally |
| Movement.Controller.constructor | src/movement.js:21-32 | zero velocity and position, released keys, an empty machine |
| Movement.Controller.OnModelLoaded | src/movement.js:42-56 | the model is on the planet's surface at (0, radius, 0) and the body is 3 above it |
| Movement.Controller.OnAnimationLoaded | src/movement.js:67-75 | the clip is stored in the machine's table |
| Movement.Controller.OnAnimationsLoaded | src/movement.js:63-65 | `Switched("idle")`: a fresh idle instance is current, the animation table becomes `Entered(old table, Idle, None)` and an idle enter is recorded |
| Movement.Controller.Update | src/movement.js:96-170 | before loading nothing changes; afterwards the machine takes `Stepped(keys)` (table, hooks and instance as in `FSM.Update`) and the rig becomes `Tick` of the old rig |
| Movement.Controller.Move | src/movement.js:103-164 | braking, acceleration, turning and placement together compute `Tick` |
| Movement.Controller.Brake | src/movement.js:103-113 | the clamped deceleration yields `Braked` of the old velocity |
| Movement.Controller.Push | src/movement.js:120-140 | the key branches yield `Accelerated` velocity and the `Turn` orientation |
| Movement.Controller.Advance | src/movement.js:144-164 | the model moves by the rotated velocity; the body and `_position` follow |
| Meteors.RadiusRange | src/meteor.ts:29 | the radius is an integer in 5..14 |
| Meteors.Radius | src/meteor.ts:29 | `Math.floor(Math.random() * 10 + 5)`; `RadiusRange` bounds it |
| Meteors.StartOnHemisphere | src/meteor.ts:31-37 | the spawn point is 800 from the centre and above the horizon |
| Meteors.TargetOnIsland | src/meteor.ts:40-44 | the aim point is within 75 of the centre, at height equal to the radius |
| Meteors.UpdateRule | src/meteor.ts:97-122 | `update` sets `crash` for y < -250; a crashed meteor leaves the world and scene with velocity and mesh untouched; otherwise velocity is the heading times 200 and the mesh is on the body; consistency is kept |
| Meteors.UpdateIdempotent | src/meteor.ts:97-122 | a second `update` with the same heading changes nothing more |
| Meteors.Updated | src/meteor.ts:97-122 | the state after `update`; `UpdateRule` and `UpdateIdempotent` state it |
| Meteors.CollideRule | src/meteor.ts:49-56 | a collision always sets `crash`, sets `hitPlayer` only when `bj` is the player, and keeps `hitPlayer` implying `crash` |
| Meteors.PlayerAsBiMissed | src/meteor.ts:53 | a collision that lists the player as `bi` crashes the meteor without registering the hit |
| Meteors.Collided | src/meteor.ts:49-56 | the state after the collide listener as written; `CollideRule` and `PlayerAsBiMissed` state it |
| Meteors.Meteor.constructor | src/meteor.ts:26-57 | a new meteor is unflagged, in the world and scene, at its spawn point, with the radius and target of its draws |
| Meteors.Meteor.OnCollide | src/meteor.ts:49-56 | the collide handler computes `Collided` |
| Meteors.Meteor.Delete | src/meteor.ts:92-95 | `delete` removes body and mesh and nothing else |
| Meteors.Meteor.Update | src/meteor.ts:97-122 | `update` computes `Updated` |
| BuiltMeteors.RadiusRange | built/meteor.js:11 | the radius is an integer in 10..19 |
| BuiltMeteors.Radius | built/meteor.js:11 | `Math.floor(Math.random() * 10 + 10)`; `RadiusRange` bounds it |
| BuiltMeteors.CollideSymmetric | built/meteor.js:27-33 | the hit is registered whichever way round the bodies are listed, exactly when the player is one of them; `crash` is always set |
| BuiltMeteors.PlayerAsBiRegistered | built/meteor.js:27-33 | a player listed as `bi` is registered as hit |
| BuiltMeteors.Collided | built/meteor.js:27-33 | the state after the symmetric collide listener; `CollideSymmetric` and `PlayerAsBiRegistered` state it |
| BuiltMeteors.Meteor.constructor | built/meteor.js:8-34 | a new meteor is unflagged, in the world and scene, at its spawn point |
| BuiltMeteors.Meteor.OnCollide | built/meteor.js:27-33 | the collide handler computes the symmetric `Collided` |
| BuiltMeteors.Meteor.Delete | built/meteor.js:53-56 | `delete` removes body and mesh |
| BuiltMeteors.Meteor.Update | built/meteor.js:57-71 | `update` computes the same `Updated` as src/meteor.ts |
| Game.VerdictAfterUpdate | src/main.ts:143-152 | after `update` the meteor reports `hitPlayer` exactly for a hit verdict, and `crash` without a hit exactly for a crash verdict |
| Game.VerdictOf | src/main.ts:143-152 | the verdict the sweep reads after `update`, from the state before it; `VerdictAfterUpdate` and `UpdateTracked` tie it to the flags |
| Game.Fates | src/main.ts:142-157 | the sweep assigns one fate per meteor |
| Game.Survivors | src/main.ts:152-156 | the meteors left in the array are at most as many as were looked at |
| Game.FateVerdicts | src/main.ts:142-157 | kept meteors were flying, scored ones crashed, and the one that ended the sweep hit the player |
| Game.ScoredThenSkipped | src/main.ts:142-156 | each scored meteor is followed by a skipped one (the post-splice `i++`), and every skipped meteor follows a scored one |
| Game.EndedIsFinal | src/main.ts:146-149 | after a hit no meteor is reached, and every unreached meteor comes after a hit |
| Game.SurvivorsCount | src/main.ts:152-156 | survivors plus points equal the meteors looked at |
| Game.UnscoredStretchStays | src/main.ts:142-157 | a stretch with no crash keeps its meteors in order and scores nothing |
| Game.DistinctPairs | src/main.ts:142-157 | a row with no repeats has pairwise different entries |
| Game.SurvivorsSubset | src/main.ts:152-156 | splicing only removes: every survivor was in the row |
| Game.SurvivorsDistinct | src/main.ts:152-156 | the survivors of a row without repeats have none either |
| Game.SurvivorsKeep | src/main.ts:152-156 | every meteor not scored is still in the array |
| Game.SurvivorsValid | src/main.ts:142-157 | the survivors of a consistent row are consistent |
| Game.SurvivorsAimed | src/main.ts:142-164 | splicing keeps only meteors of the row, so if every meteor tests contacts against the player body passed at src/main.ts:164, every survivor still does |
| Game.DistinctAppend | src/main.ts:159-173 | pushing a fresh meteor keeps the row free of repeats |
| Game.ScoredDeleted | src/main.ts:152-156 | a meteor spliced out after a crash has already removed itself, so deleting it again changes nothing |
| Game.ScoredGone | src/main.ts:142-157 | every meteor that leaves the array in a sweep is already out of the world and scene |
| Game.SpawnsBelowTarget | src/main.ts:159-173 | the two spawn branches together fire exactly when fewer than `Target(score)` meteors are alive |
| Game.TargetSchedule | src/main.ts:159-173 | the target is score + 1 below 5 points, 5 up to 25, and `ceil(score / 5)` after that |
| Game.TargetMonotone | src/main.ts:159-173 | the target never shrinks as the score grows |
| Game.Target | src/main.ts:159-173 | the meteor count the spawn step grows toward; `TargetSchedule`, `TargetMonotone` and `SpawnsBelowTarget` state it |
| Game.Spawns | src/main.ts:159-173 | the two spawn conditions, with `score / 5` a real division; `SpawnsBelowTarget` proves it equals `alive < Target(score)` |
| Game.UpdatesAt | src/main.ts:142-157 | the sweep calls `update` on a meteor exactly when its fate is kept, scored or ended |
| Game.SweepOutcome | src/main.ts:142-157 | the sweep run on the verdicts gives the survivors, the points and the hit flag of `Fates`, and updates exactly the meteors that `Fates` says it reaches |
| Game.Finish | src/main.ts:142-157 | the rest of the sweep loop as the loop runs it; `SweepOutcome` proves it gives the `Fates` outcome |
| Game.UpdateTracked | src/main.ts:143 | one meteor's `update` reports its verdict: `hitPlayer` for a hit, otherwise `crash` for a crash |
| Game.SweepDone | src/main.ts:142-157 | when the loop stops, the hit flag, the remaining array, the points and every meteor's state are those of `Fates` |
| Game.SweepTurn | src/main.ts:143-156 | one pass of the loop body keeps the loop invariant and, unless it hit, shrinks what is left to look at |
| Game.Sweep | src/main.ts:142-157 | the loop of `_updateMeteors`: hit iff a hit fate, array == survivors, points == crashes counted, and every meteor's new state as `Fates` says |
| Game.World.constructor | src/main.ts:35-112 | not started, score 0, no meteors, no previous frame time |
| Game.World.Start | src/main.ts:114-123 | `_Start` sets the score to 0, empties the meteor list and resets the input; the dropped meteors are untouched |
| Game.World.Animate | src/main.ts:230-232 | `_animate` requests one frame when started and nothing otherwise |
| Game.World.Begin | src/main.ts:216-224 | the start button, once the character has loaded, starts the game and requests a frame |
| Game.World.Restart | src/main.ts:193-199 | the restart button starts the game, requests a frame, and then runs `_Start` |
| Game.World.GameOver | src/main.ts:176-202 | stopped, every meteor deleted, the list emptied, the input disabled, the player reset, `canJump`, the input velocity and the score kept |
| Game.World.DeleteAll | src/main.ts:179 | the delete loop of `_GameOver`: every meteor of a row without repeats ends in `Deleted` of its old state |
| Game.World.SweepMeteors | src/main.ts:142-157 | `SweptAt`: the hit flag is a hit among `Fates` of the old states' verdicts, the list becomes the survivors, the score grows by the crashes, every old meteor's state is as its fate says, and `started` is kept |
| Game.World.Keep | src/main.ts:152-156 | the list becomes the kept meteors and the score grows by the points |
| Game.World.Spawn | src/main.ts:159-173 | at most one meteor is appended, exactly when `Spawns` holds, fresh and at its spawn point, with the radius and target its draws give and the controller's player body as the body it tests contacts against; the list before it is unchanged; the world invariant (every meteor aims at the controller's body) is kept |
| Game.World.UpdateMeteors | src/main.ts:141-174 | `Updated` over the old list: the score grows by the crashes before any hit; a hit stops the run, empties the list, leaves every old meteor deleted and resets the player with keys released; otherwise the survivors stay in order, the controller is untouched, and one fresh meteor at its spawn point with the given heading, the radius and target of its draws and the controller's player body is appended exactly when `Spawns` holds |
| Game.World.SpawnOnMiss | src/main.ts:159-173 | the branch after a sweep without a hit: it turns `SweptAt` into `Updated` by the spawn step, leaving the controller untouched |
| Game.World.EndOnHit | src/main.ts:146-149 | the hit branch: after `_GameOver` the outcome is `Updated` with every meteor of the old row deleted, the list empty and the run stopped; the player is at the reset pose with keys released, and `canJump` is kept |
| Game.World.Step | src/main.ts:251-267 | `_Step` converts ms to s (× 0.001) and runs one controller update: pose, keys and flag become `BuiltCharacter.Tick` of the old ones over `elapsed * 0.001`, and the machine takes `Stepped` on the old keys; before the controller has loaded, controller, input and machine are unchanged; the player body id is kept |
| Game.World.StepAfterSweep | src/main.ts:245 | the controller step after the meteor update keeps the `Updated` outcome of that update and computes `Tick` and `Stepped` as `Step` does |
| Game.World.OnFrame | src/main.ts:232-247 | one frame: the elapsed time is the stamp minus the old `previousRAF` (zero on the first frame), which becomes the stamp; one more frame is pending when started; the meteors end as `Updated` says of the old list and states; and the controller takes `Tick` over `elapsed * 0.001`, from the reset pose with keys released after a hit and from its old pose and keys otherwise |
| Game.World.Frame | src/main.ts:242-245 | the two updates of a frame, `_updateMeteors` then `_Step`: the same outcome as `OnFrame` relative to the state after the stamp is stored |
| Game.SweepingStart | src/main.ts:142 | before the loop, the invariant holds with nothing looked at |
| Game.SweepingStep | src/main.ts:143-156 | each verdict moves the invariant forward: a hit stops, a crash splices and adds a point, a flight moves on |
| Particles.MixesInterpolate | src/particles.ts:124-137 | the lerps give the first value at 0 and the second at 1 |
| Particles.FirstAtLeast | src/particles.ts:51-56 | the search stops at the first key >= t, or at the end |
| Particles.Segment | src/particles.ts:48-58 | `p1` is in range; every key up to it is below t, and the key after it (or `p1`'s own) is >= t |
| Particles.SplineValue | src/particles.ts:48-68 | the value `Get` returns; `SplineBeyond`, `SplineAtKey`, `SplineBelow` and `SplineBetween` state it |
| Particles.SplineBeyond | src/particles.ts:51-62 | past every key `Get` returns the last value as it is |
| Particles.StopsAt | src/particles.ts:51-56 | with increasing keys, the search stops exactly where the keys cross t |
| Particles.SplineAtKey | src/particles.ts:58-67 | with increasing keys `Get` at a key returns that point's value |
| Particles.SplineBelow | src/particles.ts:58-67 | below the first key `Get` extrapolates along the first segment with a fraction <= 0, not clamping |
| Particles.SplineBetween | src/particles.ts:58-67 | between two keys `Get` lerps that segment with a fraction in (0, 1] |
| Particles.SplinesIncreasing | src/particles.ts:124-144 | the three fixed splines have increasing keys |
| Particles.AlphaRange | src/particles.ts:124-130 | for t in [0, 1] the alpha is in [0, 1] |
| Particles.SizeRange | src/particles.ts:139-144 | for t in [0, 1] the size factor is in [1, 5] |
| Particles.HexColours | src/particles.ts:136-137 | the two colour keys are (1, 1, 128/255) and (1, 128/255, 128/255) |
| Particles.TintRange | src/particles.ts:132-137 | for t in [0, 1] red is 1, blue 128/255, and green lies between the two keys |
| Particles.AlphaExtrapolates | src/particles.ts:124-130 | below 0 the alpha goes negative: at -0.1 it is -1 |
| Particles.LinearSpline.constructor | src/particles.ts:39-42 | a new spline has no points |
| Particles.LinearSpline.AddPoint | src/particles.ts:44-46 | the point is appended |
| Particles.LinearSpline.Get | src/particles.ts:48-68 | the loop and lerp compute `SplineValue` |
| Particles.BornBounds | src/particles.ts:159-173 | a new particle has life in [2.5, 10) equal to its max life, size in [2, 4), position in [-1, 19)^3, rotation in [0, 2 pi), velocity (0, 3, 0) and alpha 1 |
| Particles.Born | src/particles.ts:159-173 | the particle pushed for one set of draws; `BornBounds` and `BornInLife` state it |
| Particles.Batch | src/particles.ts:158-174 | n particles, the k-th born from the k-th draw, all with positive max life |
| Particles.Emitted | src/particles.ts:154 | `floor(h * 75)` is the integer n with n <= 75h < n + 1 |
| Particles.Count | src/particles.ts:150-158 | the particles one `_AddParticles` appends; `RemainderBound`, `Conserved` and `SteadyRate` state it |
| Particles.Remainder | src/particles.ts:150-158 | the accumulator after one `_AddParticles`; `RemainderBound` and `Conserved` state it |
| Particles.RemainderBound | src/particles.ts:150-158 | the accumulator stays in [0, 1/75), and for non-negative inputs the particles emitted plus the remainder account for the time added |
| Particles.Conserved | src/particles.ts:150-158 | over any run of non-negative steps the emitted particles / 75 plus the remainder equal the time elapsed |
| Particles.SteadyRate | src/particles.ts:150-158 | from an empty accumulator, `floor(75 * elapsed)` particles are emitted in total |
| Particles.Aged | src/particles.ts:209-211 | every life is reduced by dt and nothing else changes |
| Particles.Alive | src/particles.ts:213-215 | the filter keeps exactly the particles with life > 0 |
| Particles.DragTowardZero | src/particles.ts:227-232 | the clamped drag moves each velocity component toward zero without changing its sign |
| Particles.Dragged | src/particles.ts:227-232 | the velocity after the drag; `DragTowardZero` states it |
| Particles.ScaleBounds | src/particles.ts:222 | a size factor in [1, 5] gives a current size in [size, 5 size] |
| Particles.Animated | src/particles.ts:217-233 | every particle is animated in place, in order |
| Particles.AgedLived | src/particles.ts:209-215 | ageing and filtering keep max lives positive |
| Particles.Retained | src/particles.ts:209-215 | the kept particles are exactly the aged copies of those whose life exceeded dt |
| Particles.UpdatedLive | src/particles.ts:208-235 | after an update there are no more particles than before, and each one left has positive life |
| Particles.Updated | src/particles.ts:208-235 | the particle list after `_UpdateParticles`; `Retained`, `UpdatedLive` and `UpdateShown` state it |
| Particles.BornInLife | src/particles.ts:159-173 | a new particle is within its life |
| Particles.AgeRange | src/particles.ts:218 | for a particle still alive, `t = 1 - life / maxLife` is in [0, 1) |
| Particles.PaintedShown | src/particles.ts:220-223 | spline values in their ranges give a displayable particle |
| Particles.AnimateShown | src/particles.ts:217-233 | animating a live particle within its life gives alpha in [0, 1], size in [size, 5 size] and a colour between the keys |
| Particles.Animate | src/particles.ts:217-233 | one particle after the second loop of `_UpdateParticles`; `AnimateShown` states it |
| Particles.UpdateShown | src/particles.ts:208-235 | after an update with dt >= 0, every particle left is displayable |
| Particles.ParticleSystem.constructor | src/particles.ts:85-148 | `totalLife` 2, not deleted, no particles, an empty accumulator, and the three fixed splines |
| Particles.ParticleSystem.NewAlphaSpline | src/particles.ts:124-130 | the alpha spline has points (0, 0), (0.1, 1), (0.6, 1), (1, 0) |
| Particles.ParticleSystem.NewColourSpline | src/particles.ts:132-137 | the colour spline has points 0xFFFF80 at 0 and 0xFF8080 at 1 |
| Particles.ParticleSystem.NewSizeSpline | src/particles.ts:139-144 | the size spline has points (0, 1), (0.5, 5), (1, 1) |
| Particles.ParticleSystem.AddParticles | src/particles.ts:150-175 | `Count` new particles are appended and the accumulator becomes `Remainder` |
| Particles.ParticleSystem.AnimateParticle | src/particles.ts:217-233 | one particle's update computes `Animate` |
| Particles.ParticleSystem.Paint | src/particles.ts:220-223 | rotation, alpha, size and colour are written as `Painted` says |
| Particles.ParticleSystem.UpdateParticles | src/particles.ts:208-235 | the particle list becomes `Updated`: aged, filtered, animated |
| Particles.ParticleSystem.AgeAll | src/particles.ts:209-211 | every life is reduced by dt |
| Particles.ParticleSystem.AnimateAll | src/particles.ts:217-233 | every kept particle is animated |
| Particles.ParticleSystem.Delete | src/particles.ts:237-240 | `deleted` is set and the particles stay |
| Particles.ParticleSystem.Step | src/particles.ts:242-251 | it emits only while `totalLife > 0`, sets `deleted` only once `totalLife <= 0` and no particles remain, always updates, and reduces `totalLife` by dt |

## Left out

- Rendering, the scene graph, lights, asset loaders, the menu, the DOM, audio and the camera rig are I/O or floating-point filters with nothing discrete to state. `_UpdateGeometry` and the particle shader only feed GPU buffers.
- Physics stepping, gravity and collision detection belong to cannon-es. Collisions arrive as `Contact` events with the two body ids and the normal. The body positions the engine computes are inputs to each tick.
- The animation mixer (`mixer.update`, `crossFadeFrom`) is internal to three.js. `Enter` records only the action fields it writes and the requested cross-fade. The `_mixers` update in `_Step` is left out.
- Quaternion and trigonometric math (`setFromAxisAngle`, `applyQuaternion`, `lookAt`) are the uninterpreted `Rotation` and `Yaw` parameters. Lemmas that need more assume only the property they state, such as `Additive` or a rotation that fixes zero.
- `Math.random`, `Math.sqrt`, `Math.cos` and `Math.sin` are parameters (`Meteors.Draws`, `Particles.Draw`), constrained by what those functions guarantee.
- Event-listener wiring is left out.
  - `Disable` in built/character.js passes fresh arrow functions to `removeEventListener`, so it never detaches the key listeners.
  - The model therefore claims only the one-time reset of the flags, not that later keys are ignored.
- The spherical surface-locked controller is declared in build/src/character.d.ts, but its implementation is not part of this model. All the modelled controllers use world +y as up.
- Particles are values in a sequence rather than shared mutable objects. No particle is ever aliased in the source, so only the identity of the objects is lost.
- `Particles.LinearSpline.Get` requires at least one point. With none, the source reads `_points[0]` of an empty list and fails.
- `Particles.LinearSpline.Get` also requires `Defined`, which says two neighbouring keys are distinct. Otherwise the source divides by zero and returns NaN or Infinity.
- `_AddParticles` resets an unset or falsy `helperval` to 0. The model starts the accumulator at 0, and resetting a 0 to 0 changes nothing, so this test is folded away.
- src/character.ts also loads a 'jump' clip. No state plays it, so it is not modelled.
- built/character.js has no constructor for its input class: `_keys` is undefined until `Enable`. The model starts it released. The world's `_Init` runs `_Start`, which calls `Enable`, before any frame can read the keys.
- The frame callback of src/main.ts has some behaviour the model keeps without comment:
  - After `_GameOver` it keeps running for the frame already requested.
  - `_previousRAF` is never reset, so the first frame after a restart sees the whole pause as elapsed time.
  - `_Start` drops the old meteor list without deleting its meteors.
- `Game.World.OnFrame` stores the new stamp before running the updates, with the elapsed time computed from the old stamp. The source stores it after them. Nothing in between reads the stamp, so only the order of the writes differs.
- Floating-point rounding is not modelled. JavaScript rounds 0.1, 0.8 and 1/75, the products that use them, and each `helperval -= n/75` of the emission accumulator. These lemmas hold of exact arithmetic only, and a browser meets them up to rounding:
  - `Particles.RemainderBound`
  - `Particles.Conserved`
  - `Particles.SteadyRate`
  - `BuiltCharacter.CoastingDecays`
- Game.World: the world's meteors are those of src/meteor.ts, because src/main.ts imports that module. The world therefore keeps that file's as-written collide handler, which misses a player listed as `bi` (the src/meteor.ts:53 row of "## Findings"). The corrected handler, `BuiltMeteors.CollideSymmetric`, is proved about the built/meteor.js meteor, which the world does not use.
- `Locomotion.FSM.SetState` requires the name to be registered. The source constructs `undefined` and throws otherwise.
- `Meteors.Meteor.constructor` requires a positive norm of the direction draw. The source's draws guarantee it, since the y component is at least 0.2.
- The crash of the FSM call with mismatched arguments is stated about the call, not carried through the controller. `Character.Controller.Update` and `BuiltCharacter.Controller.Update` let the machine move by `Next`, as the controllers evidently intend (see Findings).

## Findings

| source | as written | input that shows it | evidently intended | confidence | as-written member | corrected member |
|---|---|---|---|---|---|---|
| src/character.ts:159 | passes `(timeInSeconds, input)` to the one-parameter `FiniteStateMachine.Update` (src/characterAnimations.ts:32), so the state's `input` is a number, `input._keys` is `undefined`, and reading `forward` of it (`input._keys.forward`) throws | any tick after loading with a current state | `Update(input)`, so that the state sees the key record | not executed | Locomotion.ControllerCallsAsWritten | Locomotion.ControllerCallsCorrected |
| built/character.js:135 | passes `(input)` to the two-parameter `Update(timeElapsed, input)` (built/characterAnimations.js:21), so the state's `input` is `undefined` and reading `_keys` throws | any tick after loading with a current state | `Update(timeInSeconds, input)`, as src/movement.js:101 writes it | not executed | Locomotion.ControllerCallsAsWritten | Locomotion.FSM.UpdateElapsed |
| src/meteor.ts:53 | only `contact.bj` is compared with the player's body, so a contact that lists the player as `bi` crashes the meteor without ending the game | `Contact(player, meteor, n)`; this arises only if the physics engine lists the player body (a box, src/character.ts:78) first, and cannon-es most likely lists the sphere meteor (src/meteor.ts:75) as `bi`, so the case may never occur in play | a hit whichever body comes first, as built/meteor.js:27-33 does | not executed | Meteors.PlayerAsBiMissed | BuiltMeteors.CollideSymmetric |
