/** `Core::Input` of src/core/input.cpp: the first version of the input
    state, whose setup and update loops visit the `Key` and `MouseButton`
    values that compile-time enum reflection enumerates. The static members
    are modelled as the fields of one object. Cursor positions are integer
    pixels (the callback truncates GLFW's doubles); scroll offsets are
    reals. */
module CoreInput {
  import opened KeyStates
  import KeyCodes

  datatype Point = Point(x: int, y: int)
  datatype Scroll = Scroll(x: real, y: real)

  /** The largest value the reflection library enumerates by default. */
  const REFLECTION_RANGE_MAX: int := 127

  /** The `Key` values `magic_enum::enum_values<Key>()` yields under its
      default range: only the codes up to 127. */
  function ReflectedKeys(): set<int>
  {
    set k | k in KeyCodes.AllKeys() && k <= REFLECTION_RANGE_MAX
  }

  class Input {
    /** The key codes the setup and update loops visit. */
    const keys: set<int>
    /** The mouse buttons the setup and update loops visit. */
    const buttons: set<int>
    var keyStates: States
    var buttonStates: States
    var mousePosition: Point
    var mouseDelta: Point
    var scrollDelta: Scroll

    /** Zero-initialised statics: no stored states, cursor at the origin. */
    constructor (keys: set<int>, buttons: set<int>)
      ensures this.keys == keys && this.buttons == buttons
      ensures keyStates == map[] && buttonStates == map[]
      ensures mousePosition == Point(0, 0) && mouseDelta == Point(0, 0) && scrollDelta == Scroll(0.0, 0.0)
    {
      this.keys, this.buttons := keys, buttons;
      keyStates, buttonStates := map[], map[];
      mousePosition, mouseDelta, scrollDelta := Point(0, 0), Point(0, 0), Scroll(0.0, 0.0);
    }

    /** Puts every enumerated key and button in NotPressed. */
    method Setup()
      modifies this`keyStates, this`buttonStates
      ensures keyStates == Reset(old(keyStates), keys)
      ensures buttonStates == Reset(old(buttonStates), buttons)
      ensures forall k :: k in keys ==> GetKeyState(k) == NotPressed
      ensures forall b :: b in buttons ==> GetMouseButtonState(b) == NotPressed
    {
      keyStates := ResetAll(keyStates, keys);
      buttonStates := ResetAll(buttonStates, buttons);
      ResetStates(old(keyStates), keys);
      ResetStates(old(buttonStates), buttons);
    }

    /** Ends the frame: every enumerated key and button advances, other
        codes keep their state, and both deltas return to zero. */
    method Update()
      modifies this`keyStates, this`buttonStates, this`mouseDelta, this`scrollDelta
      ensures keyStates == Stepped(old(keyStates), keys)
      ensures buttonStates == Stepped(old(buttonStates), buttons)
      ensures forall k :: k in keys ==> !IsKeyPressed(k) && !IsKeyReleased(k)
      ensures forall k :: k !in keys ==> GetKeyState(k) == StateOf(old(keyStates), k)
      ensures forall b :: b in buttons ==> !IsMouseButtonPressed(b) && !IsMouseButtonReleased(b)
      ensures mouseDelta == Point(0, 0) && scrollDelta == Scroll(0.0, 0.0)
    {
      keyStates := StepAll(keyStates, keys);
      buttonStates := StepAll(buttonStates, buttons);
      SteppedStates(old(keyStates), keys);
      SteppedStates(old(buttonStates), buttons);
      mouseDelta := Point(0, 0);
      scrollDelta := Scroll(0.0, 0.0);
    }

    /** `operator[]` on the state map: the stored state, or the
        default-constructed `NotPressed` for a code never reported. */
    function GetKeyState(key: int): (r: KeyState)
      reads this
      ensures key in keyStates ==> r == keyStates[key]
      ensures key !in keyStates ==> r == NotPressed
    {
      StateOf(keyStates, key)
    }

    function GetMouseButtonState(button: int): (r: KeyState)
      reads this
      ensures button in buttonStates ==> r == buttonStates[button]
      ensures button !in buttonStates ==> r == NotPressed
    {
      StateOf(buttonStates, button)
    }

    /** True exactly in the frame a press was reported; never for a code
        never reported. */
    predicate IsKeyPressed(key: int)
      reads this
      ensures IsKeyPressed(key) <==> key in keyStates && keyStates[key] == Pressed
    {
      GetKeyState(key) == Pressed
    }

    predicate IsKeyHeld(key: int)
      reads this
      ensures IsKeyHeld(key) <==> key in keyStates && keyStates[key] == Held
    {
      GetKeyState(key) == Held
    }

    predicate IsKeyReleased(key: int)
      reads this
      ensures IsKeyReleased(key) <==> key in keyStates && keyStates[key] == Released
    {
      GetKeyState(key) == Released
    }

    predicate IsMouseButtonPressed(button: int)
      reads this
      ensures IsMouseButtonPressed(button) <==> button in buttonStates && buttonStates[button] == Pressed
    {
      GetMouseButtonState(button) == Pressed
    }

    predicate IsMouseButtonHeld(button: int)
      reads this
      ensures IsMouseButtonHeld(button) <==> button in buttonStates && buttonStates[button] == Held
    {
      GetMouseButtonState(button) == Held
    }

    predicate IsMouseButtonReleased(button: int)
      reads this
      ensures IsMouseButtonReleased(button) <==> button in buttonStates && buttonStates[button] == Released
    {
      GetMouseButtonState(button) == Released
    }

    /** Records a press or a release of `key`; any other action leaves the
        states untouched. */
    method KeyCallback(key: int, action: int)
      modifies this`keyStates
      ensures action != GLFW_PRESS && action != GLFW_RELEASE ==> keyStates == old(keyStates)
      ensures action == GLFW_PRESS || action == GLFW_RELEASE ==>
        keyStates == old(keyStates)[key := OnAction(StateOf(old(keyStates), key), action)]
      ensures action == GLFW_PRESS ==> IsKeyPressed(key)
      ensures action == GLFW_RELEASE ==> IsKeyReleased(key)
    {
      if action == GLFW_PRESS {
        keyStates := keyStates[key := Pressed];
      } else if action == GLFW_RELEASE {
        keyStates := keyStates[key := Released];
      }
    }

    method MouseButtonCallback(button: int, action: int)
      modifies this`buttonStates
      ensures action != GLFW_PRESS && action != GLFW_RELEASE ==> buttonStates == old(buttonStates)
      ensures action == GLFW_PRESS || action == GLFW_RELEASE ==>
        buttonStates == old(buttonStates)[button := OnAction(StateOf(old(buttonStates), button), action)]
      ensures action == GLFW_PRESS ==> IsMouseButtonPressed(button)
      ensures action == GLFW_RELEASE ==> IsMouseButtonReleased(button)
    {
      if action == GLFW_PRESS {
        buttonStates := buttonStates[button := Pressed];
      } else if action == GLFW_RELEASE {
        buttonStates := buttonStates[button := Released];
      }
    }

    /** Moves the cursor; the delta is the step from the previous position. */
    method MouseMoveCallback(x: int, y: int)
      modifies this`mouseDelta, this`mousePosition
      ensures mousePosition == Point(x, y)
      ensures old(mousePosition).x + mouseDelta.x == x && old(mousePosition).y + mouseDelta.y == y
    {
      mouseDelta := Point(x - mousePosition.x, y - mousePosition.y);
      mousePosition := Point(x, y);
    }

    method ScrollCallback(x: real, y: real)
      modifies this`scrollDelta
      ensures scrollDelta == Scroll(x, y)
    {
      scrollDelta := Scroll(x, y);
    }
  }

  /** With the reflected key range, the escape key (code 256) is never
      visited by the update loop: once pressed it reports Pressed in every
      later frame instead of turning into Held. */
  lemma ReflectedUpdateKeepsEscapePressed(m: States)
    ensures KeyCodes.KEY_ESCAPE in KeyCodes.AllKeys() && KeyCodes.KEY_ESCAPE !in ReflectedKeys()
    ensures StateOf(Stepped(m[KeyCodes.KEY_ESCAPE := Pressed], ReflectedKeys()), KeyCodes.KEY_ESCAPE) == Pressed
  {
    SteppedStates(m[KeyCodes.KEY_ESCAPE := Pressed], ReflectedKeys());
  }

  /** Visiting every `Key` value, as the module version does, turns every
      reported press of a key into Held at the next update. */
  lemma FullUpdateAdvancesEveryKey(m: States, key: int)
    requires key in KeyCodes.AllKeys()
    ensures StateOf(Stepped(m[key := Pressed], KeyCodes.AllKeys()), key) == Held
  {
    SteppedStates(m[key := Pressed], KeyCodes.AllKeys());
  }
}
