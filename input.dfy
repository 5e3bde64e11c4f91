/**
 * `Input`: the keyboard, mouse and wheel state the window events write and
 * the game reads each frame. Each event listener is a method.
 */
module InputController {
  import opened Wrappers
  import opened Vectors
  import Text

  /** The key names tracked, as the key map spells them. */
  const TrackedKeys: set<string> := {"w", "a", "s", "d", "Space", "p", "t", "e", "f"}

  const InitialKeys: map<string, bool> := map k | k in TrackedKeys :: false

  /** `keys[k]` read as a condition: a missing key is `undefined`, which is falsy. */
  predicate Pressed(keys: map<string, bool>, k: string) {
    k in keys && keys[k]
  }

  /** A field value that `||` passes over: missing (`undefined`) or 0. NaN is not modelled. */
  predicate Falsy(x: Option<real>) {
    x.None? || x.value == 0.0
  }

  /** The value of `a || b || c || 0` over event fields that may be missing: the first truthy one, else 0. */
  function FirstTruthy(a: Option<real>, b: Option<real>, c: Option<real>): (r: real)
    ensures !Falsy(a) ==> r == a.value
    ensures Falsy(a) && !Falsy(b) ==> r == b.value
    ensures Falsy(a) && Falsy(b) && !Falsy(c) ==> r == c.value
    ensures Falsy(a) && Falsy(b) && Falsy(c) ==> r == 0.0
    ensures r == 0.0 <==> Falsy(a) && Falsy(b) && Falsy(c)
  {
    if a.Some? && a.value != 0.0 then a.value
    else if b.Some? && b.value != 0.0 then b.value
    else if c.Some? && c.value != 0.0 then c.value
    else 0.0
  }

  /** `getMovementVector`: a/d on x (left positive), w/s on z (forward positive). */
  function MovementVector(keys: map<string, bool>): (v: Vec3)
    ensures v.y == 0.0
    ensures v.x in {-1.0, 0.0, 1.0} && v.z in {-1.0, 0.0, 1.0}
    ensures v.x == 1.0 <==> Pressed(keys, "a") && !Pressed(keys, "d")
    ensures v.x == -1.0 <==> Pressed(keys, "d") && !Pressed(keys, "a")
    ensures v.z == 1.0 <==> Pressed(keys, "w") && !Pressed(keys, "s")
    ensures v.z == -1.0 <==> Pressed(keys, "s") && !Pressed(keys, "w")
  {
    var forward := if Pressed(keys, "w") then 1.0 else 0.0;
    var backward := if Pressed(keys, "s") then -1.0 else 0.0;
    var right := if Pressed(keys, "d") then -1.0 else 0.0;
    var left := if Pressed(keys, "a") then 1.0 else 0.0;
    Vec3(right + left, 0.0, forward + backward)
  }

  /** Some key moves the player: a pair of opposite keys that does not cancel. */
  predicate KeysMove(keys: map<string, bool>) {
    Pressed(keys, "a") != Pressed(keys, "d") || Pressed(keys, "w") != Pressed(keys, "s")
  }

  /**
   * Opposite keys held together cancel out: the movement vector is zero
   * exactly when no key moves the player, and otherwise has length at least 1.
   */
  lemma OppositeKeysCancel(keys: map<string, bool>)
    ensures Pressed(keys, "a") == Pressed(keys, "d") ==> MovementVector(keys).x == 0.0
    ensures Pressed(keys, "w") == Pressed(keys, "s") ==> MovementVector(keys).z == 0.0
    ensures !KeysMove(keys) <==> LengthSq(MovementVector(keys)) == 0.0
    ensures KeysMove(keys) <==> LengthSq(MovementVector(keys)) >= 1.0
  {
    var v := MovementVector(keys);
    var xx := if v.x == 0.0 then 0.0 else 1.0;
    var zz := if v.z == 0.0 then 0.0 else 1.0;
    SquareOfUnit(v.x);
    SquareOfUnit(v.z);
    assert LengthSq(v) == xx + zz;
  }

  /** A value among -1, 0 and 1 squares to 0 exactly when it is 0, and to 1 otherwise. */
  lemma SquareOfUnit(a: real)
    requires a in {-1.0, 0.0, 1.0}
    ensures a * a == if a == 0.0 then 0.0 else 1.0
  {
  }

  /**
   * A lower-cased key is never the name "Space", so the Space entry of the key
   * map cannot be changed by any key event.
   */
  lemma LowerIsNeverSpace(key: string)
    ensures Text.Lower(key) != "Space"
  {
    var k := Text.Lower(key);
    if |k| == 5 {
      assert k[0] == Text.LowerChar(key[0]);
      assert k[0] != 'S';
    }
  }

  class Input {
    /** `mouseMovement.x` and `.y`, the last event's deltas. */
    var mouseX: real
    var mouseY: real
    /** `isMouseDownLeft` starts out `undefined`, read as false. */
    var isMouseDownLeft: bool
    var isRightMouseDown: bool
    var wheelData: real
    var keys: map<string, bool>

    constructor()
      ensures keys == InitialKeys && keys.Keys == TrackedKeys
      ensures forall k :: k in keys ==> !keys[k]
      ensures mouseX == 0.0 && mouseY == 0.0 && wheelData == 0.0
      ensures !isMouseDownLeft && !isRightMouseDown
    {
      mouseX, mouseY := 0.0, 0.0;
      isMouseDownLeft, isRightMouseDown := false, false;
      wheelData := 0.0;
      keys := InitialKeys;
    }

    /** `mousemove`: the deltas are overwritten, not accumulated. */
    method OnMouseMove(movementX: Option<real>, mozMovementX: Option<real>, webkitMovementX: Option<real>,
                       movementY: Option<real>, mozMovementY: Option<real>, webkitMovementY: Option<real>)
      modifies this`mouseX, this`mouseY
      ensures mouseX == FirstTruthy(movementX, mozMovementX, webkitMovementX)
      ensures mouseY == FirstTruthy(movementY, mozMovementY, webkitMovementY)
    {
      mouseX := FirstTruthy(movementX, mozMovementX, webkitMovementX);
      mouseY := FirstTruthy(movementY, mozMovementY, webkitMovementY);
    }

    /** `keydown`: a tracked key (after lower-casing) becomes pressed; any other key is ignored. */
    method OnKeyDown(key: string)
      modifies this`keys
      ensures keys.Keys == old(keys).Keys
      ensures Text.Lower(key) in old(keys) ==> keys == old(keys)[Text.Lower(key) := true]
      ensures Text.Lower(key) !in old(keys) ==> keys == old(keys)
      ensures "Space" in old(keys) ==> keys["Space"] == old(keys)["Space"]
    {
      var k := Text.Lower(key);
      LowerIsNeverSpace(key);
      if k in keys {
        keys := keys[k := true];
      }
    }

    /** `keyup`: a tracked key (after lower-casing) is released; any other key is ignored. */
    method OnKeyUp(key: string)
      modifies this`keys
      ensures keys.Keys == old(keys).Keys
      ensures Text.Lower(key) in old(keys) ==> keys == old(keys)[Text.Lower(key) := false]
      ensures Text.Lower(key) !in old(keys) ==> keys == old(keys)
      ensures "Space" in old(keys) ==> keys["Space"] == old(keys)["Space"]
    {
      var k := Text.Lower(key);
      LowerIsNeverSpace(key);
      if k in keys {
        keys := keys[k := false];
      }
    }

    /** `mousedown`: button 0 is the trigger, button 2 aims; other buttons are ignored. */
    method OnMouseDown(button: int)
      modifies this`isMouseDownLeft, this`isRightMouseDown
      ensures isMouseDownLeft == (button == 0 || old(isMouseDownLeft))
      ensures isRightMouseDown == (button == 2 || old(isRightMouseDown))
    {
      if button == 0 { isMouseDownLeft := true; }
      if button == 2 { isRightMouseDown := true; }
    }

    method OnMouseUp(button: int)
      modifies this`isMouseDownLeft, this`isRightMouseDown
      ensures isMouseDownLeft == (button != 0 && old(isMouseDownLeft))
      ensures isRightMouseDown == (button != 2 && old(isRightMouseDown))
    {
      if button == 0 { isMouseDownLeft := false; }
      if button == 2 { isRightMouseDown := false; }
    }

    method OnWheel(deltaY: real)
      modifies this`wheelData
      ensures wheelData == deltaY
    {
      wheelData := deltaY;
    }

    function GetMovementVector(): Vec3
      reads this
    {
      MovementVector(keys)
    }

    method ClearWheel()
      modifies this`wheelData
      ensures wheelData == 0.0
    {
      wheelData := 0.0;
    }

    method ResetMouseMovement()
      modifies this`mouseX, this`mouseY
      ensures mouseX == 0.0 && mouseY == 0.0
    {
      mouseX, mouseY := 0.0, 0.0;
    }
  }
}
