/** The GUI manager (src/gui/manager.cpp, src/gui/manager.h): the list of
    layers drawn each frame, the names fonts are registered and looked up
    under, the result check handed to the ImGui Vulkan backend, and the
    popups registered by name. */
module GuiManager {
  import opened Wrappers
  import Text

  // --------------------------------------------------------------- layers

  /** A layer, by identity (the source keeps `Layer*`). */
  type LayerId = nat

  /** `s` with every occurrence of `x` erased, the rest in order. */
  function Without(s: seq<LayerId>, x: LayerId): (r: seq<LayerId>)
    ensures x !in r
    ensures forall y :: y != x ==> multiset(r)[y] == multiset(s)[y]
    ensures |r| == |s| - multiset(s)[x]
  {
    if s == [] then []
    else
      var r := Without(s[..|s| - 1], x) + (if s[|s| - 1] == x then [] else [s[|s| - 1]]);
      assert s == s[..|s| - 1] + [s[|s| - 1]];
      r
  }

  /** Erasing a layer that was never added gives back the list. */
  lemma {:induction false} WithoutAbsent(s: seq<LayerId>, x: LayerId)
    requires x !in s
    ensures Without(s, x) == s
  {
    if s != [] {
      WithoutAbsent(s[..|s| - 1], x);
      assert s == s[..|s| - 1] + [s[|s| - 1]];
    }
  }

  /** Adding a new layer and removing it again restores the list. */
  lemma AddThenRemove(s: seq<LayerId>, x: LayerId)
    requires x !in s
    ensures Without(s + [x], x) == s
  {
    assert (s + [x])[..|s|] == s;
    WithoutAbsent(s, x);
  }

  /** The layers drawn each frame, in the order they were added. */
  class Layers {
    var layers: seq<LayerId>

    constructor ()
      ensures layers == []
    {
      layers := [];
    }

    /** `AddLayer`: appended, even when already present. */
    method AddLayer(layer: LayerId)
      modifies this
      ensures layers == old(layers) + [layer]
    {
      layers := layers + [layer];
    }

    /** `RemoveLayer`: `std::erase` drops every occurrence. */
    method RemoveLayer(layer: LayerId)
      modifies this
      ensures layers == Without(old(layers), layer)
    {
      layers := Without(layers, layer);
    }
  }

  // --------------------------------------------------------- result check

  /** What `check_vk_result` does with a `VkResult`. */
  datatype Outcome = Silent | Logged | Aborted

  /** `check_vk_result`: success returns quietly, any other code is
      logged, and a negative one (an error, not a status) aborts. */
  function CheckResult(err: int): (o: Outcome)
    ensures o == Silent <==> err == 0
    ensures o == Aborted <==> err < 0
    ensures o == Logged <==> err > 0
  {
    if err == 0 then Silent else if err < 0 then Aborted else Logged
  }

  // ---------------------------------------------------------------- fonts

  /** The decimal digits of `n`, most significant first, as `to_string`
      writes them. */
  function Decimal(n: nat): (r: string)
    ensures |r| >= 1 && forall k :: 0 <= k < |r| ==> '0' <= r[k] <= '9'
    decreases n
  {
    if n < 10 then [Digit(n)] else Decimal(n / 10) + [Digit(n % 10)]
  }

  function Digit(d: nat): (c: char)
    requires d < 10
    ensures '0' <= c <= '9'
  {
    ('0' as int + d) as char
  }

  /** The number a string of decimal digits stands for. */
  function ValueOf(s: string): nat
  {
    if s == [] then 0
    else if '0' <= s[|s| - 1] <= '9' then 10 * ValueOf(s[..|s| - 1]) + (s[|s| - 1] as int - '0' as int)
    else 10 * ValueOf(s[..|s| - 1])
  }

  /** Reading the digits back gives the number. */
  lemma {:induction false} DecimalRoundTrip(n: nat)
    ensures ValueOf(Decimal(n)) == n
    decreases n
  {
    if n >= 10 {
      DecimalRoundTrip(n / 10);
      var s := Decimal(n);
      assert s[..|s| - 1] == Decimal(n / 10);
    }
  }

  /** `std::to_string` of a whole font size: `%f`, six decimals. Sizes
      with a fraction are not modelled. */
  function SizeText(size: nat): (r: string)
    ensures forall k :: 0 <= k < |r| ==> r[k] != '/' && r[k] != '-' && r[k] != '_'
  {
    Decimal(size) + ".000000"
  }

  /** `AddFont`'s name for a font file: the path joined to the working
      directory, cut after the last '/', then after the last '-', then
      before the last '.', followed by "_" and the size. */
  function FontName(cwd: string, path: string, size: nat): string
  {
    var full := cwd + "/" + path;
    var file := Text.AfterLast(full, {'/'});
    var style := Text.AfterLast(file, {'-'});
    Text.BeforeLast(style, {'.'}) + "_" + SizeText(size)
  }

  /** The font types (`FontType`). */
  datatype FontType = Light | Regular | Medium | Bold | Italic | Black

  /** The text a font type contributes to the name `GetFont` looks for:
      its enumerator's name. */
  function TypeName(t: FontType): (r: string)
    ensures forall k :: 0 <= k < |r| ==> r[k] !in {'/', '-', '.', '_'}
  {
    match t
    case Light => "Light"
    case Regular => "Regular"
    case Medium => "Medium"
    case Bold => "Bold"
    case Italic => "Italic"
    case Black => "Black"
  }

  /** The name `GetFont` looks for. */
  function FontKey(t: FontType, size: nat): string
  {
    TypeName(t) + "_" + SizeText(size)
  }

  /** Distinct type and size pairs are looked up under distinct names,
      so `GetFont` never answers one request with another's font. */
  lemma FontKeyInjective(t: FontType, size: nat, t': FontType, size': nat)
    requires FontKey(t, size) == FontKey(t', size')
    ensures t == t' && size == size'
  {
    var a, b := TypeName(t), SizeText(size);
    var a', b' := TypeName(t'), SizeText(size');
    SplitAtUnderscore(a, b, a', b');
    var n, n' := |Decimal(size)|, |Decimal(size')|;
    assert Decimal(size) == b[..n] && Decimal(size') == b'[..n'];
    assert n == n';
    DecimalRoundTrip(size);
    DecimalRoundTrip(size');
  }

  /** Two names joined at the only '_' in them split the same way. */
  lemma SplitAtUnderscore(a: string, b: string, a': string, b': string)
    requires '_' !in a && '_' !in a' && '_' !in b && '_' !in b'
    requires a + "_" + b == a' + "_" + b'
    ensures a == a' && b == b'
  {
    var s := a + "_" + b;
    assert s[|a|] == '_' && s[|a'|] == '_';
    assert a == s[..|a|] == a';
    assert b == s[|a| + 1..] == b';
  }

  /** The bundled font file of a type, as `SetupContext` registers it. */
  function RobotoPath(t: FontType): string
  {
    "assets/fonts/Roboto-" + TypeName(t) + ".ttf"
  }

  /** The name `AddFont` gives the bundled file of a type is the name
      `GetFont` looks for, whatever the working directory. */
  lemma RobotoNamedAsLookedUp(cwd: string, t: FontType, size: nat)
    ensures FontName(cwd, RobotoPath(t), size) == FontKey(t, size)
  {
    RobotoFile(cwd, t);
    RobotoStyle(t);
    RobotoStem(t);
  }

  lemma RobotoFile(cwd: string, t: FontType)
    ensures Text.AfterLast(cwd + "/" + RobotoPath(t), {'/'}) == "Roboto-" + TypeName(t) + ".ttf"
  {
    var tail := "Roboto-" + TypeName(t) + ".ttf";
    assert cwd + "/" + RobotoPath(t) == (cwd + "/assets/fonts") + ['/'] + tail;
    Text.SplitJoin(cwd + "/assets/fonts", '/', tail, {'/'});
  }

  lemma RobotoStyle(t: FontType)
    ensures Text.AfterLast("Roboto-" + TypeName(t) + ".ttf", {'-'}) == TypeName(t) + ".ttf"
  {
    assert "Roboto-" + TypeName(t) + ".ttf" == "Roboto" + ['-'] + (TypeName(t) + ".ttf");
    Text.SplitJoin("Roboto", '-', TypeName(t) + ".ttf", {'-'});
  }

  lemma RobotoStem(t: FontType)
    ensures Text.BeforeLast(TypeName(t) + ".ttf", {'.'}) == TypeName(t)
  {
    assert TypeName(t) + ".ttf" == TypeName(t) + ['.'] + "ttf";
    Text.SplitJoin(TypeName(t), '.', "ttf", {'.'});
  }

  /** The fonts of the ImGui atlas, by their config names. */
  class Fonts {
    var names: seq<string>

    constructor ()
      ensures names == []
    {
      names := [];
    }

    /** `AddFont`: one font under the derived name; the icon font that
        follows is merged into it and adds no entry. */
    method AddFont(cwd: string, path: string, size: nat)
      modifies this
      ensures names == old(names) + [FontName(cwd, path, size)]
    {
      names := names + [FontName(cwd, path, size)];
    }

    /** `GetFont`: the first font whose name is the key, or the first
        font when none is. */
    method GetFont(t: FontType, size: nat) returns (r: nat)
      requires |names| > 0
      ensures r < |names|
      ensures FontKey(t, size) in names ==> names[r] == FontKey(t, size) && FontKey(t, size) !in names[..r]
      ensures FontKey(t, size) !in names ==> r == 0
    {
      var key := FontKey(t, size);
      for i := 0 to |names|
        invariant key !in names[..i]
      {
        if names[i] == key {
          return i;
        }
        assert names[..i + 1] == names[..i] + [names[i]];
      }
      assert names[..|names|] == names;
      return 0;
    }
  }

  // --------------------------------------------------------------- popups

  /** A popup, by identity (the source keeps `Popup*`). */
  type PopupId = nat

  /** The popups of a `Manager`, by name. */
  class Popups {
    var popups: map<string, PopupId>

    constructor ()
      ensures popups == map[]
    {
      popups := map[];
    }

    /** `RegisterPopup`: `emplace` keeps a popup already registered under
        the name. */
    method RegisterPopup(name: string, popup: PopupId)
      modifies this
      ensures name in old(popups) ==> popups == old(popups)
      ensures name !in old(popups) ==> popups == old(popups)[name := popup]
    {
      if name !in popups {
        popups := popups[name := popup];
      }
    }

    /** `GetPopup`: the popup registered under the name, null otherwise. */
    function GetPopup(name: string): (r: Option<PopupId>)
      reads this
      ensures r.Some? <==> name in popups
      ensures r.Some? ==> r.value == popups[name]
    {
      if name in popups then Some(popups[name]) else None
    }

    /** `UnregisterPopup`: erases the name; an absent name changes
        nothing. */
    method UnregisterPopup(name: string)
      modifies this
      ensures popups == old(popups) - {name}
      ensures name !in old(popups) ==> popups == old(popups)
    {
      popups := popups - {name};
    }
  }
}
