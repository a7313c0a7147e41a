/** Vulkan flag masks (`vk::Flags<...>`) as 32-bit vectors, and the OR of a set
    of single flag bits that several builders accumulate and their
    constructors fold together. */
module FlagSets {

  type Flags = bv32

  /** Every bit of `f` is set in `mask`. */
  predicate Covers(mask: Flags, f: Flags)
  {
    f & mask == f
  }

  predicate CoversAll(mask: Flags, s: set<Flags>)
  {
    forall f :: f in s ==> Covers(mask, f)
  }

  /** The OR of every flag in `s`, accumulated one element at a time as the
      constructor's loops do: `r` covers every member, and every mask that
      covers every member covers `r`. */
  method OrAll(s: set<Flags>) returns (r: Flags)
    ensures CoversAll(r, s)
    ensures forall m: Flags :: CoversAll(m, s) ==> Covers(m, r)
  {
    r := 0;
    var rest := s;
    while rest != {}
      invariant rest <= s
      invariant CoversAll(r, s - rest)
      invariant forall m: Flags :: CoversAll(m, s) ==> Covers(m, r)
      decreases rest
    {
      PickFrom(rest);
      var f: Flags :| f in rest;
      var next := r | f;
      forall g | g in s - (rest - {f}) ensures Covers(next, g) {
        if g == f {
          CoversWiden(f, r, f);
          assert f | r == next;
        } else {
          CoversWiden(r, f, g);
        }
      }
      forall m: Flags | CoversAll(m, s) ensures Covers(m, next) {
        CoversOr(m, r, f);
      }
      r := next;
      rest := rest - {f};
    }
  }

  lemma PickFrom(rest: set<Flags>)
    requires rest != {}
    ensures exists f :: f in rest
  {
    if forall f :: f !in rest {
      assert false;
    }
  }

  lemma CoversWiden(r: Flags, f: Flags, g: Flags)
    requires Covers(r, g)
    ensures Covers(r | f, g)
  {
  }

  lemma CoversOr(m: Flags, r: Flags, f: Flags)
    requires Covers(m, r) && Covers(m, f)
    ensures Covers(m, r | f)
  {
  }
}
