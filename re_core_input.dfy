/** `Input` of src/re_core/input.cpp, the module version of the input
    state: its setup and update loops visit the explicit `allKeys` and
    `allMouseButtons` sets, and cursor and scroll vectors are `f64`,
    modelled as reals. The static members are the fields of one object. */
module ReCoreInput {
  import opened KeyStates
  import KeyCodes

  datatype Vector2 = Vector2(x: real, y: real)

  class Input {
    /** `allKeys`: every `Key` value. */
    const keys: set<int>
    /** `allMouseButtons`: the eight mouse buttons. */
    const buttons: set<int>
    var keyStates: States
    var buttonStates: States
    var mousePosition: Vector2
    var mouseDelta: Vector2
    var scrollDelta: Vector2

    /** The static initialisers: no stored states, every vector zero. */
    constructor ()
      ensures keys == KeyCodes.AllKeys() && buttons == KeyCodes.AllMouseButtons()
      ensures keyStates == map[] && buttonStates == map[]
      ensures mousePosition == Vector2(0.0, 0.0) && mouseDelta == Vector2(0.0, 0.0)
      ensures scrollDelta == Vector2(0.0, 0.0)
    {
      keys, buttons := KeyCodes.AllKeys(), KeyCodes.AllMouseButtons();
      keyStates, buttonStates := map[], map[];
      mousePosition, mouseDelta, scrollDelta := Vector2(0.0, 0.0), Vector2(0.0, 0.0), Vector2(0.0, 0.0);
    }

    /** Puts every enumerated key and button in NotPressed. */
    method Setup()
      modifies this`keyStates, this`buttonStates
      ensures keyStates == Reset(old(keyStates), keys)
      ensures buttonStates == Reset(old(buttonStates), buttons)
      ensures forall k :: k in keys ==> GetKeyState(k) == NotPressed
      ensures forall b :: b in buttons ==> GetMouseButtonState(b) == NotPressed
    {
      keyStates := ResetAll(keyStates, keys);
      buttonStates := ResetAll(buttonStates, buttons);
      ResetStates(old(keyStates), keys);
      ResetStates(old(buttonStates), buttons);
    }

    /** Ends the frame: every enumerated key and button advances, other
        codes keep their state, and both deltas return to zero. */
    method Update()
      modifies this`keyStates, this`buttonStates, this`mouseDelta, this`scrollDelta
      ensures keyStates == Stepped(old(keyStates), keys)
      ensures buttonStates == Stepped(old(buttonStates), buttons)
      ensures forall k :: k in keys ==> !IsKeyPressed(k) && !IsKeyReleased(k)
      ensures forall k :: k !in keys ==> GetKeyState(k) == StateOf(old(keyStates), k)
      ensures forall b :: b in buttons ==> !IsMouseButtonPressed(b) && !IsMouseButtonReleased(b)
      ensures mouseDelta == Vector2(0.0, 0.0) && scrollDelta == Vector2(0.0, 0.0)
    {
      keyStates := StepAll(keyStates, keys);
      buttonStates := StepAll(buttonStates, buttons);
      SteppedStates(old(keyStates), keys);
      SteppedStates(old(buttonStates), buttons);
      mouseDelta := Vector2(0.0, 0.0);
      scrollDelta := Vector2(0.0, 0.0);
    }

    /** `operator[]` on the state map: the stored state, or the
        default-constructed `NotPressed` for a code never reported. */
    function GetKeyState(key: int): (r: KeyState)
      reads this
      ensures key in keyStates ==> r == keyStates[key]
      ensures key !in keyStates ==> r == NotPressed
    {
      StateOf(keyStates, key)
    }

    function GetMouseButtonState(button: int): (r: KeyState)
      reads this
      ensures button in buttonStates ==> r == buttonStates[button]
      ensures button !in buttonStates ==> r == NotPressed
    {
      StateOf(buttonStates, button)
    }

    /** True exactly in the frame a press was reported; never for a code
        never reported. */
    predicate IsKeyPressed(key: int)
      reads this
      ensures IsKeyPressed(key) <==> key in keyStates && keyStates[key] == Pressed
    {
      GetKeyState(key) == Pressed
    }

    predicate IsKeyHeld(key: int)
      reads this
      ensures IsKeyHeld(key) <==> key in keyStates && keyStates[key] == Held
    {
      GetKeyState(key) == Held
    }

    predicate IsKeyReleased(key: int)
      reads this
      ensures IsKeyReleased(key) <==> key in keyStates && keyStates[key] == Released
    {
      GetKeyState(key) == Released
    }

    predicate IsMouseButtonPressed(button: int)
      reads this
      ensures IsMouseButtonPressed(button) <==> button in buttonStates && buttonStates[button] == Pressed
    {
      GetMouseButtonState(button) == Pressed
    }

    predicate IsMouseButtonHeld(button: int)
      reads this
      ensures IsMouseButtonHeld(button) <==> button in buttonStates && buttonStates[button] == Held
    {
      GetMouseButtonState(button) == Held
    }

    predicate IsMouseButtonReleased(button: int)
      reads this
      ensures IsMouseButtonReleased(button) <==> button in buttonStates && buttonStates[button] == Released
    {
      GetMouseButtonState(button) == Released
    }

    /** Records a press or a release of `key`; any other action leaves the
        states untouched. */
    method KeyCallback(key: int, action: int)
      modifies this`keyStates
      ensures action != GLFW_PRESS && action != GLFW_RELEASE ==> keyStates == old(keyStates)
      ensures action == GLFW_PRESS || action == GLFW_RELEASE ==>
        keyStates == old(keyStates)[key := OnAction(StateOf(old(keyStates), key), action)]
      ensures action == GLFW_PRESS ==> IsKeyPressed(key)
      ensures action == GLFW_RELEASE ==> IsKeyReleased(key)
    {
      if action == GLFW_PRESS {
        keyStates := keyStates[key := Pressed];
      } else if action == GLFW_RELEASE {
        keyStates := keyStates[key := Released];
      }
    }

    method MouseButtonCallback(button: int, action: int)
      modifies this`buttonStates
      ensures action != GLFW_PRESS && action != GLFW_RELEASE ==> buttonStates == old(buttonStates)
      ensures action == GLFW_PRESS || action == GLFW_RELEASE ==>
        buttonStates == old(buttonStates)[button := OnAction(StateOf(old(buttonStates), button), action)]
      ensures action == GLFW_PRESS ==> IsMouseButtonPressed(button)
      ensures action == GLFW_RELEASE ==> IsMouseButtonReleased(button)
    {
      if action == GLFW_PRESS {
        buttonStates := buttonStates[button := Pressed];
      } else if action == GLFW_RELEASE {
        buttonStates := buttonStates[button := Released];
      }
    }

    /** Moves the cursor; the delta is the step from the previous position. */
    method MouseMoveCallback(x: real, y: real)
      modifies this`mouseDelta, this`mousePosition
      ensures mousePosition == Vector2(x, y)
      ensures old(mousePosition).x + mouseDelta.x == x && old(mousePosition).y + mouseDelta.y == y
    {
      mouseDelta := Vector2(x - mousePosition.x, y - mousePosition.y);
      mousePosition := Vector2(x, y);
    }

    /** The scroll delta is the last reported offset until the next update. */
    method ScrollCallback(x: real, y: real)
      modifies this`scrollDelta
      ensures scrollDelta == Vector2(x, y)
    {
      scrollDelta := Vector2(x, y);
    }
  }

  /** A press of any `Key` value turns into Held at the next update, and a
      code outside `allKeys` keeps whatever a callback stored for it. */
  lemma UpdateCoversEveryKey(input: Input, key: int)
    requires input.keys == KeyCodes.AllKeys()
    ensures key in KeyCodes.AllKeys() ==>
      StateOf(Stepped(input.keyStates[key := Pressed], input.keys), key) == Held
    ensures key !in KeyCodes.AllKeys() ==>
      StateOf(Stepped(input.keyStates, input.keys), key) == StateOf(input.keyStates, key)
  {
    SteppedStates(input.keyStates[key := Pressed], input.keys);
    SteppedStates(input.keyStates, input.keys);
  }
}
