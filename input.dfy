/**
 * Keyboard input state: `CharacterControllerInput` in src/character.ts,
 * built/character.js and src/movement.js. The six key flags are one record;
 * a DOM key event names a `keyCode`, and W, A, S, D, space and shift drive
 * forward, left, backward, right, space and shift.
 */
module Input {
  import opened Base

  datatype Keys = Keys(forward: bool, backward: bool, left: bool, right: bool, space: bool, shift: bool)

  /** All six flags false: the record `_Init`, `Enable` and `Disable` install. */
  const Released: Keys := Keys(false, false, false, false, false, false)

  datatype Key = Forward | Left | Backward | Right | Space | Shift

  /** The flag a `keyCode` drives, if any (the `switch` of `_onKeyDown` and `_onKeyUp`). */
  function KeyFor(code: int): Option<Key> {
    if code == 87 then Some(Forward)
    else if code == 65 then Some(Left)
    else if code == 83 then Some(Backward)
    else if code == 68 then Some(Right)
    else if code == 32 then Some(Space)
    else if code == 16 then Some(Shift)
    else None
  }

  /** The key code of each flag: W, A, S, D, space, shift. */
  function Code(k: Key): int {
    match k
    case Forward => 87
    case Left => 65
    case Backward => 83
    case Right => 68
    case Space => 32
    case Shift => 16
  }

  /** `KeyFor` and `Code` are inverse: exactly six codes drive a flag, one each. */
  lemma KeyForCode(code: int, k: Key)
    ensures KeyFor(code) == Some(k) <==> code == Code(k)
  {
  }

  function Held(keys: Keys, k: Key): bool {
    match k
    case Forward => keys.forward
    case Left => keys.left
    case Backward => keys.backward
    case Right => keys.right
    case Space => keys.space
    case Shift => keys.shift
  }

  /** `keys` with the one flag `k` set to `down`. */
  function With(keys: Keys, k: Key, down: bool): (r: Keys)
    ensures Held(r, k) == down
    ensures forall j :: j != k ==> Held(r, j) == Held(keys, j)
  {
    match k
    case Forward => keys.(forward := down)
    case Left => keys.(left := down)
    case Backward => keys.(backward := down)
    case Right => keys.(right := down)
    case Space => keys.(space := down)
    case Shift => keys.(shift := down)
  }

  /** The key record after a key-down (`down`) or key-up event with this code. */
  function OnKey(keys: Keys, code: int, down: bool): (r: Keys)
    ensures forall k :: Held(r, k) == if code == Code(k) then down else Held(keys, k)
  {
    match KeyFor(code)
    case None => keys
    case Some(k) => With(keys, k, down)
  }

  /** A code that names no flag leaves the record alone. */
  lemma OtherCodesIgnored(keys: Keys, code: int, down: bool)
    requires KeyFor(code).None?
    ensures OnKey(keys, code, down) == keys
  {
  }

  /** Releasing a key that was pressed from the released position restores the record. */
  lemma {:induction false} ReleaseUndoesPress(keys: Keys, k: Key)
    requires !Held(keys, k)
    ensures OnKey(OnKey(keys, Code(k), true), Code(k), false) == keys
  {
    KeyForCode(Code(k), k);
    var pressed := With(keys, k, true);
    assert OnKey(keys, Code(k), true) == pressed;
    assert OnKey(pressed, Code(k), false) == With(pressed, k, false);
    match k
    case Forward =>
    case Left =>
    case Backward =>
    case Right =>
    case Space =>
    case Shift =>
  }

  class ControllerInput {
    var keys: Keys
    /** Copied here from the controller every tick; reset by `Enable` and `Disable`. */
    var canJump: bool

    /** `_Init`: all flags released (the event listeners it registers are not modelled). */
    constructor ()
      ensures keys == Released && !canJump
    {
      keys := Released;
      canJump := false;
    }

    /** `_onKeyDown`: the flag of `code` goes true, everything else stays. */
    method KeyDown(code: int)
      modifies this
      ensures keys == OnKey(old(keys), code, true) && canJump == old(canJump)
    {
      if code == 87 {
        keys := keys.(forward := true);
      } else if code == 65 {
        keys := keys.(left := true);
      } else if code == 83 {
        keys := keys.(backward := true);
      } else if code == 68 {
        keys := keys.(right := true);
      } else if code == 32 {
        keys := keys.(space := true);
      } else if code == 16 {
        keys := keys.(shift := true);
      }
    }

    /** `_onKeyUp`: the flag of `code` goes false, everything else stays. */
    method KeyUp(code: int)
      modifies this
      ensures keys == OnKey(old(keys), code, false) && canJump == old(canJump)
    {
      if code == 87 {
        keys := keys.(forward := false);
      } else if code == 65 {
        keys := keys.(left := false);
      } else if code == 83 {
        keys := keys.(backward := false);
      } else if code == 68 {
        keys := keys.(right := false);
      } else if code == 32 {
        keys := keys.(space := false);
      } else if code == 16 {
        keys := keys.(shift := false);
      }
    }

    /** `Enable`: a fresh released record and `canJump` false. */
    method Enable()
      modifies this
      ensures keys == Released && !canJump
    {
      keys := Keys(false, false, false, false, false, false);
      canJump := false;
    }

    /** `Disable`: the same reset as `Enable`. */
    method Disable()
      modifies this
      ensures keys == Released && !canJump
    {
      keys := Keys(false, false, false, false, false, false);
      canJump := false;
    }
  }
}
