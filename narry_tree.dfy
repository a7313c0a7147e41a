/** The n-ary ownership tree every scene object is a node of
    (src/utils/narryTree.h). Nodes are handles into one forest: a node's
    parent pointer is an entry of `parent`, its owned child list an entry of
    `kids`. The ghost `path` records each node's ancestors from its root
    down to its parent; it is what makes the recursive search terminate. */
module NarryTree {
  import opened Wrappers

  type Node = nat

  /** `IdType`: the identifier a node reports through `Id()`. */
  type Id = nat

  predicate Distinct(s: seq<Node>)
  {
    forall i, j :: 0 <= i < j < |s| ==> s[i] != s[j]
  }

  ghost function Elems(s: seq<Node>): set<Node>
  {
    set x | x in s
  }

  /** Parent pointers and child lists agree: every listed child points back
      at the list's owner, and a node with a parent is listed by it, once. */
  predicate Linked(parent: map<Node, Node>, kids: map<Node, seq<Node>>)
  {
    && parent.Keys <= kids.Keys
    && (forall n, i :: n in kids && 0 <= i < |kids[n]| ==> kids[n][i] in parent && parent[kids[n][i]] == n)
    && (forall c :: c in parent ==> parent[c] in kids && c in kids[parent[c]])
    && (forall n :: n in kids ==> Distinct(kids[n]))
  }

  ghost predicate NoSelfAncestor(path: map<Node, seq<Node>>)
  {
    forall n :: n in path ==> n !in path[n]
  }

  ghost predicate RootsEmpty(parent: map<Node, Node>, path: map<Node, seq<Node>>)
  {
    forall n :: n in path && n !in parent ==> path[n] == []
  }

  ghost predicate PathsExtend(parent: map<Node, Node>, path: map<Node, seq<Node>>)
  {
    forall c {:trigger parent[c]} :: c in parent ==> c in path && parent[c] in path && path[c] == path[parent[c]] + [parent[c]]
  }

  ghost predicate PrefixClosed(path: map<Node, seq<Node>>)
  {
    && (forall n, i :: n in path && 0 <= i < |path[n]| ==> path[n][i] in path)
    && (forall n, i {:trigger path[path[n][i]]} :: n in path && 0 <= i < |path[n]| && path[n][i] in path ==> path[path[n][i]] == path[n][..i])
  }

  /** Every node's ancestor path ends in its parent, a root's is empty, no
      node is its own ancestor, and each ancestor's path is a prefix. */
  ghost predicate Rooted(parent: map<Node, Node>, kids: map<Node, seq<Node>>, path: map<Node, seq<Node>>)
  {
    && Linked(parent, kids)
    && path.Keys == kids.Keys
    && NoSelfAncestor(path)
    && RootsEmpty(parent, path)
    && PathsExtend(parent, path)
    && PrefixClosed(path)
  }

  /** Whether `n` is `root` or one of its descendants. */
  ghost predicate Below(path: map<Node, seq<Node>>, n: Node, root: Node)
    requires n in path
  {
    n == root || root in path[n]
  }

  /** Paths after the root `c` is made a child of `p`: `c`'s whole tree
      gains `p`'s path and `p` in front. */
  ghost function Grafted(path: map<Node, seq<Node>>, p: Node, c: Node): map<Node, seq<Node>>
    requires p in path
  {
    map n | n in path :: if Below(path, n, c) then path[p] + [p] + path[n] else path[n]
  }

  /** Paths after `d` is cut from its parent: `d`'s whole tree loses the
      path `d` had. */
  ghost function Pruned(path: map<Node, seq<Node>>, d: Node): map<Node, seq<Node>>
    requires d in path
  {
    map n | n in path :: if Below(path, n, d) then DropPrefix(path[n], |path[d]|) else path[n]
  }

  function DropPrefix(s: seq<Node>, k: nat): seq<Node>
  {
    if k <= |s| then s[k..] else []
  }

  /** An ancestor's path is a prefix of its descendant's, ending just
      before the ancestor's own position. */
  lemma AncestorPrefix(path: map<Node, seq<Node>>, n: Node, m: Node)
    requires PrefixClosed(path) && n in path && m in path[n]
    ensures m in path && |path[m]| < |path[n]| && path[n][|path[m]|] == m
    ensures path[m] == path[n][..|path[m]|]
    ensures forall x :: x in path[m] ==> x in path[n]
  {
    var j :| 0 <= j < |path[n]| && path[n][j] == m;
    assert path[path[n][j]] == path[n][..j];
  }

  /** `p` and its ancestors are not below a root `c` that is not `p` and is
      not one of `p`'s ancestors. */
  lemma OutsideGraft(path: map<Node, seq<Node>>, p: Node, c: Node)
    requires PrefixClosed(path) && p in path && p != c && c !in path[p]
    ensures forall m :: m in path[p] + [p] ==> m in path && !Below(path, m, c)
  {
    forall m | m in path[p]
      ensures m in path && !Below(path, m, c)
    {
      AncestorPrefix(path, p, m);
    }
  }

  /** Adding a parentless child keeps the links consistent. */
  lemma AddKeepsLinked(parent: map<Node, Node>, kids: map<Node, seq<Node>>, p: Node, c: Node)
    requires Linked(parent, kids) && p in kids && c in kids && c !in parent
    ensures c !in kids[p]
    ensures Linked(parent[c := p], kids[p := kids[p] + [c]])
  {
    var kids' := kids[p := kids[p] + [c]];
    forall n | n in kids'
      ensures Distinct(kids'[n])
    {
    }
  }

  lemma AddKeepsPaths(parent: map<Node, Node>, path: map<Node, seq<Node>>, p: Node, c: Node)
    requires NoSelfAncestor(path) && RootsEmpty(parent, path) && PathsExtend(parent, path) && PrefixClosed(path)
    requires p in path && c in path && c !in parent && p != c && c !in path[p]
    ensures NoSelfAncestor(Grafted(path, p, c))
    ensures RootsEmpty(parent[c := p], Grafted(path, p, c))
    ensures PathsExtend(parent[c := p], Grafted(path, p, c))
  {
    var path' := Grafted(path, p, c);
    OutsideGraft(path, p, c);
    assert path'[p] == path[p];
    forall q | q in parent
      ensures Below(path, q, c) == Below(path, parent[q], c)
    {
      assert path[q] == path[parent[q]] + [parent[q]];
    }
  }

  lemma AddKeepsPrefix(parent: map<Node, Node>, path: map<Node, seq<Node>>, p: Node, c: Node)
    requires RootsEmpty(parent, path) && PrefixClosed(path)
    requires p in path && c in path && c !in parent && p != c && c !in path[p]
    ensures PrefixClosed(Grafted(path, p, c))
  {
    var path' := Grafted(path, p, c);
    OutsideGraft(path, p, c);
    var pre := path[p] + [p];
    forall n, i | n in path' && 0 <= i < |path'[n]|
      ensures path'[n][i] in path' && path'[path'[n][i]] == path'[n][..i]
    {
      if Below(path, n, c) {
        if i < |pre| {
          assert path'[n][i] == pre[i];
          if i < |path[p]| {
            assert path[pre[i]] == path[p][..i];
          }
        } else {
          var m := path[n][i - |pre|];
          AncestorPrefix(path, n, c);
          assert path[m] == path[n][..i - |pre|];
          if m != c {
            assert path[m][0] == c;
          }
          assert path'[n][..i] == pre + path[n][..i - |pre|];
        }
      } else {
        AncestorPrefix(path, n, path[n][i]);
      }
    }
  }

  lemma AddKeepsRooted(parent: map<Node, Node>, kids: map<Node, seq<Node>>, path: map<Node, seq<Node>>, p: Node, c: Node)
    requires Rooted(parent, kids, path)
    requires p in kids && c in kids && c !in parent && p != c && c !in path[p]
    ensures c !in kids[p]
    ensures Rooted(parent[c := p], kids[p := kids[p] + [c]], Grafted(path, p, c))
  {
    AddKeepsLinked(parent, kids, p, c);
    AddKeepsPaths(parent, path, p, c);
    AddKeepsPrefix(parent, path, p, c);
  }

  /** A new node with no links keeps everything consistent. */
  lemma NewKeepsRooted(parent: map<Node, Node>, kids: map<Node, seq<Node>>, path: map<Node, seq<Node>>, n: Node)
    requires Rooted(parent, kids, path) && n !in kids
    ensures Rooted(parent, kids[n := []], path[n := []])
  {
    var path' := path[n := []];
    forall m, i | m in path' && 0 <= i < |path'[m]|
      ensures path'[m][i] in path' && path'[path'[m][i]] == path'[m][..i]
    {
      assert path[m][i] in path;
    }
  }

  /** The list without `x`, order kept. */
  function Without(s: seq<Node>, x: Node): (r: seq<Node>)
    ensures x !in r
    ensures forall y :: y in r <==> y in s && y != x
  {
    if s == [] then []
    else (if s[0] == x then [] else [s[0]]) + Without(s[1..], x)
  }

  /** In a list without repeats, erasing the one position holding `x` is
      the same as filtering `x` out. */
  lemma {:induction false} WithoutAt(s: seq<Node>, i: nat)
    requires Distinct(s) && i < |s|
    ensures Without(s, s[i]) == s[..i] + s[i + 1..]
  {
    if i == 0 {
      WithoutAbsent(s[1..], s[0]);
    } else {
      assert Distinct(s[1..]);
      WithoutAt(s[1..], i - 1);
      assert s[1..][i - 1] == s[i];
      assert s[..i] == [s[0]] + s[1..][..i - 1];
      assert s[i + 1..] == s[1..][i..];
    }
  }

  lemma {:induction false} WithoutAbsent(s: seq<Node>, x: Node)
    requires x !in s
    ensures Without(s, x) == s
  {
    if s != [] {
      WithoutAbsent(s[1..], x);
    }
  }

  /** Filtering keeps a list free of repeats. */
  lemma {:induction false} WithoutDistinct(s: seq<Node>, x: Node)
    requires Distinct(s)
    ensures Distinct(Without(s, x))
  {
    if s != [] {
      assert Distinct(s[1..]);
      WithoutDistinct(s[1..], x);
      var head: seq<Node> := if s[0] == x then [] else [s[0]];
      var tail := Without(s[1..], x);
      assert s[0] !in tail;
      assert Without(s, x) == head + tail;
    }
  }

  lemma DetachKeepsDistinct(kids: map<Node, seq<Node>>, p: Node, d: Node)
    requires p in kids && forall n :: n in kids ==> Distinct(kids[n])
    ensures forall n :: n in kids ==> Distinct(kids[p := Without(kids[p], d)][n])
  {
    WithoutDistinct(kids[p], d);
  }

  /** After detaching `d`, every listed child still points back to the
      node listing it. */
  lemma DetachKidsPointBack(parent: map<Node, Node>, kids: map<Node, seq<Node>>, d: Node,
                            parent': map<Node, Node>, kids': map<Node, seq<Node>>)
    requires Linked(parent, kids) && d in parent
    requires parent' == parent - {d} && kids' == kids[parent[d] := Without(kids[parent[d]], d)]
    ensures forall n, i :: n in kids' && 0 <= i < |kids'[n]| ==> kids'[n][i] in parent' && parent'[kids'[n][i]] == n
  {
    forall n, i | n in kids' && 0 <= i < |kids'[n]|
      ensures kids'[n][i] in parent' && parent'[kids'[n][i]] == n
    {
      if n == parent[d] {
        assert kids'[n][i] in kids[n];
      }
    }
  }

  /** After detaching `d`, every remaining child is still listed by its
      parent. */
  lemma DetachParentsList(parent: map<Node, Node>, kids: map<Node, seq<Node>>, d: Node,
                          parent': map<Node, Node>, kids': map<Node, seq<Node>>)
    requires Linked(parent, kids) && d in parent
    requires parent' == parent - {d} && kids' == kids[parent[d] := Without(kids[parent[d]], d)]
    ensures forall c :: c in parent' ==> parent'[c] in kids' && c in kids'[parent'[c]]
  {
    forall c | c in parent'
      ensures parent'[c] in kids' && c in kids'[parent'[c]]
    {
      if parent[c] == parent[d] {
        assert c in kids[parent[c]];
      }
    }
  }

  lemma DetachKeepsLinked(parent: map<Node, Node>, kids: map<Node, seq<Node>>, d: Node)
    requires Linked(parent, kids) && d in parent
    ensures Linked(parent - {d}, kids[parent[d] := Without(kids[parent[d]], d)])
  {
    var parent', kids' := parent - {d}, kids[parent[d] := Without(kids[parent[d]], d)];
    DetachKeepsDistinct(kids, parent[d], d);
    DetachKidsPointBack(parent, kids, d, parent', kids');
    DetachParentsList(parent, kids, d, parent', kids');
    assert parent'.Keys <= kids'.Keys;
  }

  lemma DetachKeepsPaths(parent: map<Node, Node>, path: map<Node, seq<Node>>, d: Node)
    requires NoSelfAncestor(path) && RootsEmpty(parent, path) && PathsExtend(parent, path) && PrefixClosed(path)
    requires d in parent
    ensures NoSelfAncestor(Pruned(path, d))
    ensures RootsEmpty(parent - {d}, Pruned(path, d))
    ensures PathsExtend(parent - {d}, Pruned(path, d))
  {
    var path' := Pruned(path, d);
    var k := |path[d]|;
    forall n | n in path && d in path[n]
      ensures k < |path[n]| && path[n][k] == d
    {
      AncestorPrefix(path, n, d);
    }
    forall q | q in parent && q != d
      ensures path'[q] == path'[parent[q]] + [parent[q]]
    {
      var r := parent[q];
      assert path[q] == path[r] + [r];
      assert Below(path, q, d) == Below(path, r, d);
    }
  }

  lemma DetachKeepsPrefix(path: map<Node, seq<Node>>, d: Node)
    requires PrefixClosed(path) && d in path
    ensures PrefixClosed(Pruned(path, d))
  {
    var path' := Pruned(path, d);
    var k := |path[d]|;
    forall n, i | n in path' && 0 <= i < |path'[n]|
      ensures path'[n][i] in path' && path'[path'[n][i]] == path'[n][..i]
    {
      if Below(path, n, d) {
        if n != d {
          AncestorPrefix(path, n, d);
        }
        var m := path[n][k + i];
        assert path[m] == path[n][..k + i];
        if i > 0 {
          assert path[m][k] == d;
        }
      } else {
        AncestorPrefix(path, n, path[n][i]);
      }
    }
  }

  lemma DetachKeepsRooted(parent: map<Node, Node>, kids: map<Node, seq<Node>>, path: map<Node, seq<Node>>, d: Node)
    requires Rooted(parent, kids, path) && d in parent
    ensures Rooted(parent - {d}, kids[parent[d] := Without(kids[parent[d]], d)], Pruned(path, d))
  {
    DetachKeepsLinked(parent, kids, d);
    DetachKeepsPaths(parent, path, d);
    DetachKeepsPrefix(path, d);
  }

  /** The first node of `s` whose identifier is `id`. */
  function FirstWith(s: seq<Node>, idOf: Node -> Id, id: Id): (r: Option<Node>)
    ensures r.Some? ==> r.value in s && idOf(r.value) == id
    ensures r.None? <==> forall x :: x in s ==> idOf(x) != id
  {
    if s == [] then None
    else if idOf(s[0]) == id then Some(s[0])
    else FirstWith(s[1..], idOf, id)
  }

  /** Searching a concatenation searches the front first. */
  lemma {:induction false} FirstWithAppend(a: seq<Node>, b: seq<Node>, idOf: Node -> Id, id: Id)
    ensures FirstWith(a + b, idOf, id) == if FirstWith(a, idOf, id).Some? then FirstWith(a, idOf, id) else FirstWith(b, idOf, id)
  {
    if a != [] {
      assert (a + b)[0] == a[0];
      assert (a + b)[1..] == a[1..] + b;
      if idOf(a[0]) != id {
        FirstWithAppend(a[1..], b, idOf, id);
        assert FirstWith(a, idOf, id) == FirstWith(a[1..], idOf, id);
      }
    } else {
      assert a + b == b;
    }
  }

  /** A listed child's ancestors are its parent's and the parent. */
  lemma ChildPath(parent: map<Node, Node>, kids: map<Node, seq<Node>>, path: map<Node, seq<Node>>, n: Node, i: nat)
    requires Rooted(parent, kids, path) && n in kids && i < |kids[n]|
    ensures kids[n][i] in kids && path[kids[n][i]] == path[n] + [n]
    ensures Elems(path[kids[n][i]]) == Elems(path[n]) + {n}
    ensures n in path && n !in Elems(path[n])
  {
    assert parent[kids[n][i]] == n;
  }

  /** The descendants of `n` from its `i`-th child on, depth first in child
      order: the order `FindChild` visits them in. */
  ghost function DescendantsFrom(parent: map<Node, Node>, kids: map<Node, seq<Node>>, path: map<Node, seq<Node>>, n: Node, i: nat): seq<Node>
    requires Rooted(parent, kids, path) && n in kids && i <= |kids[n]|
    decreases path.Keys - Elems(path[n]), |kids[n]| - i
  {
    if i == |kids[n]| then []
    else
      ChildPath(parent, kids, path, n, i);
      var c := kids[n][i];
      [c] + DescendantsFrom(parent, kids, path, c, 0) + DescendantsFrom(parent, kids, path, n, i + 1)
  }

  /** Every node in the search order of `n` lies strictly below `n`. */
  lemma {:induction false} DescendantsBelow(parent: map<Node, Node>, kids: map<Node, seq<Node>>, path: map<Node, seq<Node>>, n: Node, i: nat)
    requires Rooted(parent, kids, path) && n in kids && i <= |kids[n]|
    ensures forall x :: x in DescendantsFrom(parent, kids, path, n, i) ==> x in path && n in path[x]
    decreases path.Keys - Elems(path[n]), |kids[n]| - i
  {
    if i < |kids[n]| {
      ChildPath(parent, kids, path, n, i);
      var c := kids[n][i];
      DescendantsBelow(parent, kids, path, c, 0);
      DescendantsBelow(parent, kids, path, n, i + 1);
      forall x | x in DescendantsFrom(parent, kids, path, c, 0)
        ensures n in path[x]
      {
        AncestorPrefix(path, x, c);
        assert path[c][|path[n]|] == n;
      }
    }
  }

  /** The depth-first search below `n`. */
  method Search(parent: map<Node, Node>, kids: map<Node, seq<Node>>, ghost path: map<Node, seq<Node>>, n: Node, idOf: Node -> Id, id: Id)
    returns (r: Option<Node>)
    requires Rooted(parent, kids, path) && n in kids
    ensures r == FirstWith(DescendantsFrom(parent, kids, path, n, 0), idOf, id)
    decreases path.Keys - Elems(path[n])
  {
    var i := 0;
    while i < |kids[n]|
      invariant i <= |kids[n]|
      invariant FirstWith(DescendantsFrom(parent, kids, path, n, 0), idOf, id) == FirstWith(DescendantsFrom(parent, kids, path, n, i), idOf, id)
    {
      ChildPath(parent, kids, path, n, i);
      var c := kids[n][i];
      ghost var below := DescendantsFrom(parent, kids, path, c, 0);
      FirstWithAppend([c] + below, DescendantsFrom(parent, kids, path, n, i + 1), idOf, id);
      FirstWithAppend([c], below, idOf, id);
      if idOf(c) == id {
        return Some(c);
      }
      var sub := Search(parent, kids, path, c, idOf, id);
      if sub.Some? {
        return sub;
      }
      i := i + 1;
    }
    r := None;
  }

  /** The position of `x` in a list that holds it: the `find_if` of
      `Detach`. */
  method IndexOf(s: seq<Node>, x: Node) returns (i: nat)
    requires x in s
    ensures i < |s| && s[i] == x
    ensures forall j :: 0 <= j < i ==> s[j] != x
  {
    i := 0;
    while s[i] != x
      invariant i < |s| && x in s[i..]
      invariant forall j :: 0 <= j < i ==> s[j] != x
      decreases |s| - i
    {
      i := i + 1;
    }
  }

  /** The erasure at the heart of `Detach`, on the forest's values: `d`
      loses its parent and leaves its parent's list, found by position. */
  method Unlink(parent: map<Node, Node>, kids: map<Node, seq<Node>>, ghost path: map<Node, seq<Node>>, d: Node)
    returns (parent': map<Node, Node>, kids': map<Node, seq<Node>>, ghost path': map<Node, seq<Node>>)
    requires Rooted(parent, kids, path) && d in parent
    ensures Rooted(parent', kids', path')
    ensures parent' == parent - {d}
    ensures kids' == kids[parent[d] := Without(kids[parent[d]], d)]
  {
    var p := parent[d];
    var siblings := kids[p];
    var i := IndexOf(siblings, d);
    WithoutAt(siblings, i);
    DetachKeepsRooted(parent, kids, path, d);
    parent', kids', path' := parent - {d}, kids[p := siblings[..i] + siblings[i + 1..]], Pruned(path, d);
  }

  /** A forest of `NarryTree` nodes. */
  class Forest {
    var parent: map<Node, Node>
    var kids: map<Node, seq<Node>>
    ghost var path: map<Node, seq<Node>>

    ghost predicate Valid()
      reads this
    {
      Rooted(parent, kids, path)
    }

    constructor ()
      ensures Valid() && kids == map[] && parent == map[]
    {
      parent, kids := map[], map[];
      path := map[];
    }

    /** A node constructed at the fresh handle `n`: no parent, no children.
        Followed by `AddChild`, it is the `AddChild` overload that
        constructs its child. */
    method NewNode(n: Node)
      requires Valid() && n !in kids
      modifies this`kids, this`path
      ensures Valid()
      ensures kids == old(kids)[n := []] && parent == old(parent)
    {
      var links, lists, paths := parent, kids, path;
      NewKeepsRooted(links, lists, paths, n);
      var lists', paths' := lists[n := []], paths[n := []];
      kids, path := lists', paths';
      assert parent == links && kids == lists' && path == paths';
    }

    /** `AddChild`: the child, a root that does not hold `p` in its own
        tree, gets `p` as parent and is appended last to `p`'s children;
        so it is listed there exactly once. */
    method AddChild(p: Node, c: Node)
      requires Valid() && p in kids && c in kids
      requires c !in parent && p != c && c !in path[p]
      modifies this`parent, this`kids, this`path
      ensures Valid()
      ensures c !in old(kids[p])
      ensures kids == old(kids)[p := old(kids[p]) + [c]]
      ensures parent == old(parent)[c := p]
    {
      var links, lists, paths := parent, kids, path;
      AddKeepsRooted(links, lists, paths, p, c);
      var links', lists', paths' := links[c := p], lists[p := lists[p] + [c]], Grafted(paths, p, c);
      parent, kids, path := links', lists', paths';
      assert parent == links' && kids == lists' && path == paths';
    }

    /** `Detach`: a root stays as it is and nothing is returned; a child is
        erased from its parent's list, siblings in order, loses its parent
        and is returned. */
    method Detach(d: Node) returns (r: Option<Node>)
      requires Valid() && d in kids
      modifies this`parent, this`kids, this`path
      ensures Valid()
      ensures d !in old(parent) ==> r == None && parent == old(parent) && kids == old(kids)
      ensures d in old(parent) ==>
                && r == Some(d)
                && parent == old(parent) - {d}
                && kids == old(kids)[old(parent[d]) := Without(old(kids[parent[d]]), d)]
    {
      if d !in parent {
        return None;
      }
      var links, lists, paths := parent, kids, path;
      var links', lists', paths' := Unlink(links, lists, paths, d);
      parent, kids, path := links', lists', paths';
      assert parent == links' && kids == lists' && path == paths';
      r := Some(d);
    }

    /** `FindChild`, with `Id()` given as `idOf`: the first descendant,
        depth first in child order, whose identifier is `id`; never `n`
        itself; none (the source throws) when no descendant has it. */
    method FindChild(n: Node, idOf: Node -> Id, id: Id) returns (r: Option<Node>)
      requires Valid() && n in kids
      ensures r == FirstWith(DescendantsFrom(parent, kids, path, n, 0), idOf, id)
      ensures r.Some? ==> r.value != n && r.value in path && n in path[r.value] && idOf(r.value) == id
    {
      var links, lists := parent, kids;
      ghost var paths := path;
      DescendantsBelow(links, lists, paths, n, 0);
      r := Search(links, lists, paths, n, idOf, id);
    }
  }
}
