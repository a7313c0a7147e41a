/** The flag editor of the GUI (`FlagSetSelection`,
    src/gui/elements/setSelection.h): a checkbox per minimal flag of a
    Vulkan flag enum, each writing its bits into the edited mask. */
module FlagSetSelection {
  import SetSelection
  import FlagSets

  type Flags = bv32

  /** A checkbox starts ticked when every bit of its flag is set. */
  predicate Ticked(mask: Flags, v: Flags)
  {
    (mask & v) == v
  }

  /** A flag as the key of a checkbox. */
  datatype Flag = Flag(bits: Flags)

  /** The checkboxes the constructor creates, one per flag. */
  ghost function Boxes(flags: set<Flags>): set<Flag>
  {
    set v | v in flags :: Flag(v)
  }

  /** The flag editor (`FlagSetSelection`): the mask it edits and, for
      each minimal flag, whether its checkbox is ticked. The checkbox rows
      `Recreate` builds are not modelled. */
  class Editor {
    var flags: Flags
    var values: map<Flag, bool>

    /** The constructor: every enum value but 0, minimised, each ticked
        when all its bits are set in the mask. */
    constructor (mask: Flags, all: set<Flags>)
      ensures flags == mask
      ensures values.Keys == Boxes(SetSelection.Minimal(all - {0}))
      ensures forall f :: f in values ==> values[f] == Ticked(mask, f.bits)
    {
      flags := mask;
      var minimal := SetSelection.MinimalFlagSet(all - {0});
      var ticked := map[];
      var left := minimal;
      while left != {}
        invariant left <= minimal
        invariant ticked.Keys == Boxes(minimal - left)
        invariant forall f :: f in ticked ==> ticked[f] == Ticked(mask, f.bits)
        decreases left
      {
        FlagSets.PickFrom(left);
        var v :| v in left;
        ticked := ticked[Flag(v) := Ticked(mask, v)];
        left := left - {v};
      }
      values := ticked;
    }

    /** The checkbox callback: the box records its state and the mask
        takes the flag in or out. */
    method Toggle(f: Flag, on: bool)
      requires f in values
      modifies this
      ensures values == old(values)[f := on]
      ensures flags == Toggled(old(flags), f.bits, on)
    {
      values := values[f := on];
      flags := Toggled(flags, f.bits, on);
    }
  }

  /** The mask after a checkbox for `v` is set to `on`: ticking ORs the
      flag in, unticking ANDs its complement in. */
  function Toggled(mask: Flags, v: Flags, on: bool): Flags
  {
    if on then mask | v else mask & !v
  }

  /** Ticking sets the flag's bits. */
  lemma TickSets(before: Flags, v: Flags)
    ensures (before | v) & v == v
  {
  }

  /** Ticking keeps every bit outside the flag. */
  lemma TickKeepsOthers(before: Flags, v: Flags)
    ensures (before | v) & !v == before & !v
  {
  }

  /** A flag sharing no bit with the ticked one keeps its state. */
  lemma TickKeepsDisjoint(before: Flags, v: Flags, w: Flags)
    requires v & w == 0
    ensures ((before | v) & w == w) <==> (before & w == w)
  {
  }

  /** Unticking clears the flag's bits. */
  lemma UntickClears(before: Flags, v: Flags)
    ensures (before & !v) & v == 0
  {
  }

  /** Unticking keeps every bit outside the flag. */
  lemma UntickKeepsOthers(before: Flags, v: Flags)
    ensures (before & !v) & !v == before & !v
  {
  }

  /** A flag sharing no bit with the unticked one keeps its state. */
  lemma UntickKeepsDisjoint(before: Flags, v: Flags, w: Flags)
    requires v & w == 0
    ensures ((before & !v) & w == w) <==> (before & w == w)
  {
  }
}
