/** The `std::string` searches the engine slices names and paths with:
    `find_last_of`, and the `substr` calls around it that keep what follows
    or what precedes the last separator. */
module Text {
  import opened Wrappers

  /** `s.find_last_of(cs)`: the last position holding one of `cs`, if any. */
  function LastOf(s: string, cs: set<char>): (r: Option<nat>)
    ensures r.Some? ==> r.value < |s| && s[r.value] in cs && forall k :: r.value < k < |s| ==> s[k] !in cs
    ensures r.None? <==> forall k :: 0 <= k < |s| ==> s[k] !in cs
  {
    if s == [] then None
    else if s[|s| - 1] in cs then Some(|s| - 1)
    else
      var r := LastOf(s[..|s| - 1], cs);
      assert forall k :: 0 <= k < |s| - 1 ==> s[..|s| - 1][k] == s[k];
      r
  }

  /** `s.substr(s.find_last_of(cs) + 1)`: what follows the last separator;
      with none, `npos + 1` wraps to 0 and the whole string is kept. */
  function AfterLast(s: string, cs: set<char>): (r: string)
    ensures forall k :: 0 <= k < |r| ==> r[k] !in cs
    ensures LastOf(s, cs).Some? ==> s == s[..LastOf(s, cs).value + 1] + r
    ensures LastOf(s, cs).None? ==> r == s
  {
    match LastOf(s, cs)
    case None => s
    case Some(i) =>
      assert s == s[..i + 1] + s[i + 1..];
      s[i + 1..]
  }

  /** `s.substr(0, s.find_last_of(cs))`: what precedes the last separator;
      with none, `npos` keeps the whole string. */
  function BeforeLast(s: string, cs: set<char>): (r: string)
    ensures LastOf(s, cs).Some? ==> |r| == LastOf(s, cs).value && r + [s[|r|]] + AfterLast(s, cs) == s
    ensures LastOf(s, cs).None? ==> r == s
  {
    match LastOf(s, cs)
    case None => s
    case Some(i) =>
      assert s == s[..i] + [s[i]] + s[i + 1..];
      s[..i]
  }

  /** Joining a stem, one separator and a separator-free tail: the tail is
      what follows the last separator and the stem what precedes it. */
  lemma SplitJoin(stem: string, sep: char, tail: string, cs: set<char>)
    requires sep in cs && forall k :: 0 <= k < |tail| ==> tail[k] !in cs
    ensures AfterLast(stem + [sep] + tail, cs) == tail
    ensures BeforeLast(stem + [sep] + tail, cs) == stem
  {
    var s := stem + [sep] + tail;
    LastAtSeparator(stem, sep, tail, cs);
    assert s[|stem| + 1..] == tail;
    assert s[..|stem|] == stem;
  }

  lemma {:induction false} LastAtSeparator(stem: string, sep: char, tail: string, cs: set<char>)
    requires sep in cs && forall k :: 0 <= k < |tail| ==> tail[k] !in cs
    ensures LastOf(stem + [sep] + tail, cs) == Some(|stem|)
    decreases |tail|
  {
    var s := stem + [sep] + tail;
    if tail != [] {
      var shorter := tail[..|tail| - 1];
      assert s[..|s| - 1] == stem + [sep] + shorter;
      assert s[|s| - 1] == tail[|tail| - 1];
      LastAtSeparator(stem, sep, shorter, cs);
    }
  }
}
