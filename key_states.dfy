/** The per-key state machine shared by both versions of `Input`
    (src/core/input.cpp and src/re_core/input.cpp): every key and mouse
    button is NotPressed, Pressed, Held or Released; callbacks report
    presses and releases, and the once-per-frame update turns a press into
    a hold and a release into rest. States live in maps from key codes,
    where a missing code reads as NotPressed, as `operator[]` of
    `std::unordered_map` default-constructs it. */
module KeyStates {

  datatype KeyState = NotPressed | Pressed | Held | Released

  // GLFW action codes
  const GLFW_RELEASE: int := 0
  const GLFW_PRESS: int := 1
  const GLFW_REPEAT: int := 2

  type States = map<int, KeyState>

  predicate IsDown(s: KeyState)
  {
    s == Pressed || s == Held
  }

  /** The state `operator[]` reads: NotPressed for a code never stored. */
  function StateOf(m: States, k: int): KeyState
  {
    if k in m then m[k] else NotPressed
  }

  /** One frame of the update loop for one key. It ends every transient
      state and never changes whether the key is down. */
  function Advance(s: KeyState): (r: KeyState)
    ensures r != Pressed && r != Released
    ensures IsDown(r) <==> IsDown(s)
    ensures s == Held || s == NotPressed ==> r == s
  {
    match s
    case Pressed => Held
    case Released => NotPressed
    case _ => s
  }

  /** The key and mouse-button callbacks: a press or a release overrides the
      state, any other action (a repeat) keeps it. */
  function OnAction(s: KeyState, action: int): (r: KeyState)
    ensures action != GLFW_PRESS && action != GLFW_RELEASE ==> r == s
    ensures IsDown(Advance(r)) <==> (action == GLFW_PRESS || (action != GLFW_RELEASE && IsDown(s)))
  {
    if action == GLFW_PRESS then Pressed
    else if action == GLFW_RELEASE then Released
    else s
  }

  /** A press is reported as Pressed in the frame it arrives and as Held
      from the next update on; a release likewise becomes NotPressed. */
  lemma PressThenUpdate(s: KeyState)
    ensures Advance(OnAction(s, GLFW_PRESS)) == Held
    ensures Advance(OnAction(s, GLFW_RELEASE)) == NotPressed
    ensures Advance(Advance(s)) == Advance(s)
  {
  }

  /** The states after the update loop over `keys`: every key of the loop
      advances (and is stored from then on); every other code keeps its
      entry. */
  function Stepped(m: States, keys: set<int>): States
  {
    map k | k in m.Keys + keys :: if k in keys then Advance(StateOf(m, k)) else m[k]
  }

  lemma SteppedStates(m: States, keys: set<int>)
    ensures Stepped(m, keys).Keys == m.Keys + keys
    ensures forall k :: k in keys ==> StateOf(Stepped(m, keys), k) == Advance(StateOf(m, k))
    ensures forall k :: k !in keys ==> StateOf(Stepped(m, keys), k) == StateOf(m, k)
  {
  }

  /** The states after the setup loop over `keys`. */
  function Reset(m: States, keys: set<int>): States
  {
    map k | k in m.Keys + keys :: if k in keys then NotPressed else m[k]
  }

  lemma ResetStates(m: States, keys: set<int>)
    ensures Reset(m, keys).Keys == m.Keys + keys
    ensures forall k :: k in keys ==> StateOf(Reset(m, keys), k) == NotPressed
    ensures forall k :: k !in keys ==> StateOf(Reset(m, keys), k) == StateOf(m, k)
  {
  }

  /** A second update in the same frame changes nothing. */
  lemma SteppedIdempotent(m: States, keys: set<int>)
    ensures Stepped(Stepped(m, keys), keys) == Stepped(m, keys)
  {
    var once := Stepped(m, keys);
    var twice := Stepped(once, keys);
    forall k | k in twice.Keys
      ensures twice[k] == once[k]
    {
      if k in keys {
        assert twice[k] == StateOf(twice, k) == Advance(Advance(StateOf(m, k)));
      }
    }
  }

  /** The update loop: visits each key once and advances its state, storing
      it even where it was absent. */
  method StepAll(m: States, keys: set<int>) returns (r: States)
    ensures r == Stepped(m, keys)
  {
    r := m;
    var rest := keys;
    while rest != {}
      invariant rest <= keys
      invariant r == Stepped(m, keys - rest)
      decreases rest
    {
      HasMember(rest);
      var k :| k in rest;
      SteppedOneMore(m, keys, rest, k);
      r := r[k := Advance(StateOf(r, k))];
      rest := rest - {k};
    }
  }

  /** The setup loop: stores NotPressed for each key. */
  method ResetAll(m: States, keys: set<int>) returns (r: States)
    ensures r == Reset(m, keys)
  {
    r := m;
    var rest := keys;
    while rest != {}
      invariant rest <= keys
      invariant r == Reset(m, keys - rest)
      decreases rest
    {
      HasMember(rest);
      var k :| k in rest;
      ResetOneMore(m, keys, rest, k);
      r := r[k := NotPressed];
      rest := rest - {k};
    }
  }

  lemma HasMember(s: set<int>)
    requires s != {}
    ensures exists k :: k in s
  {
    if forall k :: k !in s {
      assert false;
    }
  }

  lemma SteppedOneMore(m: States, keys: set<int>, rest: set<int>, k: int)
    requires k in rest && rest <= keys
    ensures Stepped(m, keys - rest)[k := Advance(StateOf(Stepped(m, keys - rest), k))]
         == Stepped(m, keys - (rest - {k}))
  {
    var done := keys - rest;
    assert keys - (rest - {k}) == done + {k};
    var a := Stepped(m, done)[k := Advance(StateOf(Stepped(m, done), k))];
    var b := Stepped(m, done + {k});
    assert a.Keys == b.Keys;
    forall j | j in a.Keys
      ensures a[j] == b[j]
    {
      if j != k && j in done {
        assert a[j] == StateOf(Stepped(m, done), j);
      }
    }
  }

  lemma ResetOneMore(m: States, keys: set<int>, rest: set<int>, k: int)
    requires k in rest && rest <= keys
    ensures Reset(m, keys - rest)[k := NotPressed] == Reset(m, keys - (rest - {k}))
  {
    var done := keys - rest;
    assert keys - (rest - {k}) == done + {k};
    var a := Reset(m, done)[k := NotPressed];
    var b := Reset(m, done + {k});
    assert a.Keys == b.Keys;
    forall j | j in a.Keys
      ensures a[j] == b[j]
    {
      if j != k && j in done {
        assert a[j] == StateOf(Reset(m, done), j);
      }
    }
  }
}
