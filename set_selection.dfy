/** The set editors of the GUI (src/gui/elements/setSelection.h): the
    minimal flag set a flag editor offers, the flag editor's checkboxes,
    and the editor of a set of enum values with its remove and add rows. */
module SetSelection {
  import FlagSets

  type Flags = bv32

  /** The test `GetMinimalFlagSet` applies: every bit of `o` is set in `v`
      (both the AND and the OR form the source writes). */
  predicate Supersedes(v: Flags, o: Flags)
  {
    (v & o) == o && (v | o) == v
  }

  lemma SupersedesTransitive(x: Flags, y: Flags, z: Flags)
    requires Supersedes(x, y) && Supersedes(y, z)
    ensures Supersedes(x, z)
  {
  }

  lemma SupersedesAntisymmetric(x: Flags, y: Flags)
    requires Supersedes(x, y) && Supersedes(y, x)
    ensures x == y
  {
  }

  /** `v` is in `flags` and no other member of `flags` has a subset of its
      bits. */
  ghost predicate IsMinimal(v: Flags, flags: set<Flags>)
  {
    v in flags && forall o :: o in flags && o != v ==> !Supersedes(v, o)
  }

  /** The members of `flags` that are minimal in it. */
  ghost function Minimal(flags: set<Flags>): set<Flags>
  {
    set v | v in flags && IsMinimal(v, flags)
  }

  /** `GetMinimalFlagSet`: find a member that is a superset of another,
      erase it and start again on what is left; when no such pair exists
      the set is returned as it is. */
  method MinimalFlagSet(flags: set<Flags>) returns (r: set<Flags>)
    ensures r == Minimal(flags)
    decreases |flags|
  {
    var outer := flags;
    while outer != {}
      invariant outer <= flags
      invariant forall v, o :: v in flags - outer && o in flags && o != v ==> !Supersedes(v, o)
      decreases outer
    {
      FlagSets.PickFrom(outer);
      var v :| v in outer;
      var inner := flags;
      while inner != {}
        invariant inner <= flags
        invariant forall o :: o in flags - inner && o != v ==> !Supersedes(v, o)
        decreases inner
      {
        FlagSets.PickFrom(inner);
        var o :| o in inner;
        if o != v && Supersedes(v, o) {
          EraseKeepsMinimal(flags, v, o);
          r := MinimalFlagSet(flags - {v});
          return;
        }
        inner := inner - {o};
      }
      outer := outer - {v};
    }
    r := flags;
    assert forall v :: v in flags ==> IsMinimal(v, flags);
  }

  /** Erasing a member that is a superset of another member leaves the
      minimal members as they were. */
  /** A value minimal once `v` is gone was minimal before: `v` is a
      superset of `o`, so a value below `v` would be below `o` too. */
  lemma MinimalWithout(flags: set<Flags>, v: Flags, o: Flags, x: Flags)
    requires v in flags && o in flags && o != v && Supersedes(v, o)
    requires IsMinimal(x, flags - {v})
    ensures IsMinimal(x, flags)
  {
    if Supersedes(x, v) {
      SupersedesTransitive(x, v, o);
      if x == o {
        SupersedesAntisymmetric(v, o);
      }
      assert false;
    }
  }

  lemma EraseKeepsMinimal(flags: set<Flags>, v: Flags, o: Flags)
    requires v in flags && o in flags && o != v && Supersedes(v, o)
    ensures Minimal(flags - {v}) == Minimal(flags)
  {
    forall x | x in Minimal(flags - {v})
      ensures x in Minimal(flags)
    {
      MinimalWithout(flags, v, o, x);
    }
  }

  /** What `GetMinimalFlagSet` promises: a subset of its input in which no
      member is a superset of another, keeping every member of the input
      that had no proper subset there. */
  lemma MinimalIsAntichain(flags: set<Flags>, r: set<Flags>)
    requires r == Minimal(flags)
    ensures r <= flags
    ensures forall v, o :: v in r && o in r && v != o ==> !Supersedes(v, o)
    ensures forall v :: IsMinimal(v, flags) ==> v in r
  {
  }

  /** Every member of a non-empty finite set has a minimal member below
      it, so the minimal set of a non-empty set is not empty. */
  lemma {:induction false} MinimalBelow(flags: set<Flags>, v: Flags)
    requires v in flags
    ensures exists m :: m in Minimal(flags) && Supersedes(v, m)
    decreases |flags|
  {
    if IsMinimal(v, flags) {
      assert v in Minimal(flags) && Supersedes(v, v);
    } else {
      var o :| o in flags && o != v && Supersedes(v, o);
      EraseKeepsMinimal(flags, v, o);
      MinimalBelow(flags - {v}, o);
      var m :| m in Minimal(flags - {v}) && Supersedes(o, m);
      SupersedesTransitive(v, o, m);
    }
  }

  /** A row of the set editor: one per member with its remove button, and
      the add row with the drop-down and the add button. */
  datatype Row<T> = RemoveRow(value: T) | AddRow

  /** The set editor (`SetSelection<T>`): the set it edits, the value
      chosen in the add row's drop-down, and its rows. `all` is every
      value of the enum and `none` the zero value `T{}`. */
  class Selection<T(==)> {
    var elems: set<T>
    var newValue: T
    var rows: seq<Row<T>>
    const all: set<T>
    const none: T

    /** `SetFull`: every value of the enum is in the set. */
    ghost predicate Full()
      reads this
    {
      all <= elems
    }

    /** The rows `Recreate` builds: one remove row per member, once each,
        then the add row exactly when the set is not full. */
    ghost predicate RowsFor(s: set<T>)
      reads this
    {
      && (forall i :: 0 <= i < |rows| ==> rows[i].RemoveRow? ==> rows[i].value in s)
      && (forall v :: v in s ==> RemoveRow(v) in rows)
      && (forall i, j :: 0 <= i < j < |rows| ==> rows[i] != rows[j])
      && (AddRow in rows <==> !(all <= s))
      && (AddRow in rows ==> rows[|rows| - 1] == AddRow)
    }

    /** The constructor: no value chosen, and the rows built. */
    constructor (s: set<T>, enumValues: set<T>, zero: T)
      ensures elems == s && all == enumValues && none == zero
      ensures newValue == zero && RowsFor(s)
    {
      elems := s;
      all := enumValues;
      none := zero;
      newValue := zero;
      rows := [];
      new;
      Recreate();
    }

    /** `SetFull`: walks the enum's values and stops at the first one
        missing from the set. */
    method SetFull() returns (full: bool)
      ensures full <==> Full()
    {
      var left := all;
      while left != {}
        invariant left <= all
        invariant all - left <= elems
        decreases left
      {
        var v :| v in left;
        if v !in elems {
          return false;
        }
        left := left - {v};
      }
      return true;
    }

    /** `Recreate`: the chosen value reset, a remove row for every member
        and the add row when the set is not full. */
    method Recreate()
      modifies this`newValue, this`rows
      ensures newValue == none && RowsFor(elems)
    {
      newValue := none;
      rows := [];
      var left := elems;
      while left != {}
        invariant left <= elems && newValue == none
        invariant forall i :: 0 <= i < |rows| ==> rows[i].RemoveRow? && rows[i].value in elems - left
        invariant forall v :: v in elems - left ==> RemoveRow(v) in rows
        invariant forall i, j :: 0 <= i < j < |rows| ==> rows[i] != rows[j]
        decreases left
      {
        var v :| v in left;
        rows := rows + [RemoveRow(v)];
        left := left - {v};
      }
      var full := SetFull();
      assert AddRow !in rows;
      if !full {
        var removes := rows;
        rows := rows + [AddRow];
        forall v | v in elems
          ensures RemoveRow(v) in rows
        {
          assert v in elems - left;
          var k :| 0 <= k < |removes| && removes[k] == RemoveRow(v);
          assert rows[k] == RemoveRow(v);
        }
      }
    }

    /** The remove button of `v`'s row: erases exactly `v`. */
    method Remove(v: T)
      modifies this`elems
      ensures elems == old(elems) - {v}
    {
      elems := elems - {v};
    }

    /** The drop-down of the add row writes the chosen value. */
    method Choose(v: T)
      modifies this`newValue
      ensures newValue == v
    {
      newValue := v;
    }

    /** The add button: nothing when no value is chosen; otherwise the
        chosen value joins the set and the choice is reset. */
    method Add() returns (changed: bool)
      modifies this`elems, this`newValue
      ensures changed <==> old(newValue) != none
      ensures changed ==> elems == old(elems) + {old(newValue)} && newValue == none
      ensures !changed ==> elems == old(elems) && newValue == old(newValue)
      ensures none !in old(elems) ==> none !in elems
    {
      if newValue == none {
        return false;
      }
      elems := elems + {newValue};
      newValue := none;
      return true;
    }
  }
}
