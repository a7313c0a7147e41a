/** Descriptor set layouts (src/memory/descriptor/setLayout.cpp): a builder
    that collects one binding description per binding number, and the
    layout built from it. */
module SetLayout {
  import opened Wrappers
  import opened FlagSets
  import Functionals

  /** `vk::DescriptorSetLayoutBinding`; `kind` is the descriptor type. */
  datatype LayoutBinding = LayoutBinding(binding: nat, kind: nat, count: nat, stageFlags: Flags)

  type Bindings = map<nat, LayoutBinding>

  /** `std::unordered_map::emplace`: an existing entry is kept, a new key
      gets the new binding. */
  function Emplace(bindings: Bindings, b: LayoutBinding): (r: Bindings)
    ensures r.Keys == bindings.Keys + {b.binding}
    ensures forall k :: k in bindings ==> r[k] == bindings[k]
    ensures b.binding !in bindings ==> r[b.binding] == b
  {
    if b.binding in bindings then bindings else bindings[b.binding := b]
  }

  /** Emplacing the bindings of `bs` one after another. */
  function EmplaceAll(bindings: Bindings, bs: seq<LayoutBinding>): Bindings
    decreases |bs|
  {
    if bs == [] then bindings else EmplaceAll(Emplace(bindings, bs[0]), bs[1..])
  }

  predicate Declares(bs: seq<LayoutBinding>, k: nat)
  {
    exists i :: 0 <= i < |bs| && bs[i].binding == k
  }

  /** Adding bindings one by one keeps the first description given for each
      binding number: the entry for `k` is the first element of `bs` with
      that number, unless the map held `k` already. */
  lemma {:induction false} FirstBindingWins(bindings: Bindings, bs: seq<LayoutBinding>, k: nat)
    ensures k in EmplaceAll(bindings, bs) <==> k in bindings || Declares(bs, k)
    ensures k in bindings ==> EmplaceAll(bindings, bs)[k] == bindings[k]
    ensures k !in bindings && Declares(bs, k) ==>
              EmplaceAll(bindings, bs)[k] == Functionals.FindIf(bs, (b: LayoutBinding) => b.binding == k).value
    decreases |bs|
  {
    if bs != [] {
      var next := Emplace(bindings, bs[0]);
      FirstBindingWins(next, bs[1..], k);
      var p := (b: LayoutBinding) => b.binding == k;
      if Declares(bs, k) && bs[0].binding != k {
        var i :| 0 <= i < |bs| && bs[i].binding == k;
        assert bs[1..][i - 1] == bs[i];
        assert Declares(bs[1..], k);
      }
      if Declares(bs[1..], k) {
        var i :| 0 <= i < |bs[1..]| && bs[1..][i].binding == k;
        assert bs[i + 1] == bs[1..][i];
      }
      if k !in bindings && Declares(bs, k) && bs[0].binding != k {
        assert Functionals.FirstIndex(bs, p) == 1 + Functionals.FirstIndex(bs[1..], p);
      }
    }
  }

  /** `SetLayout::Builder`. */
  class Builder {
    var bindings: Bindings

    constructor ()
      ensures bindings == map[] && Valid()
    {
      bindings := map[];
    }

    /** `AddBinding`: reports (as the source logs) and keeps the entry when
        the binding number is taken, otherwise adds it. */
    method AddBinding(binding: nat, kind: nat, stageFlags: Flags, count: nat := 1) returns (alreadyPresent: bool)
      modifies this
      ensures alreadyPresent <==> binding in old(bindings)
      ensures old(Valid()) ==> Valid()
      ensures bindings == Emplace(old(bindings), LayoutBinding(binding, kind, count, stageFlags))
    {
      alreadyPresent := binding in bindings;
      bindings := Emplace(bindings, LayoutBinding(binding, kind, count, stageFlags));
    }

    /** `HasBinding`. */
    predicate HasBinding(binding: nat)
      reads this
    {
      binding in bindings
    }

    /** `Binding`: `unordered_map::at`, which throws for a missing key. */
    function Binding(binding: nat): (r: Result<LayoutBinding>)
      reads this
      ensures r.Ok? <==> HasBinding(binding)
      ensures r.Ok? ==> r.value == bindings[binding]
      ensures r.Ok? && Valid() ==> r.value.binding == binding
    {
      if binding in bindings then Ok(bindings[binding]) else Err("unordered_map::at: key not found")
    }

    /** Every entry is stored under its own binding number. */
    predicate Valid()
      reads this
    {
      forall k :: k in bindings ==> bindings[k].binding == k
    }

    /** The write through `Binding(binding)` that a caller makes with
        `stageFlags |= stage`: only that entry's stage flags change. */
    method AddStage(binding: nat, stage: Flags) returns (r: Result<LayoutBinding>)
      modifies this
      ensures r.Ok? <==> binding in old(bindings)
      ensures r.Ok? ==> bindings == old(bindings)[binding := r.value]
                        && r.value == old(bindings)[binding].(stageFlags := old(bindings)[binding].stageFlags | stage)
      ensures r.Err? ==> bindings == old(bindings)
      ensures old(Valid()) ==> Valid()
    {
      if binding !in bindings {
        return Err("unordered_map::at: key not found");
      }
      var entry := bindings[binding];
      var updated := entry.(stageFlags := entry.stageFlags | stage);
      bindings := bindings[binding := updated];
      r := Ok(updated);
    }

    /** `Build`. */
    method Build() returns (layout: SetLayout)
      ensures fresh(layout) && layout.bindings == bindings
    {
      layout := new SetLayout(this);
    }
  }

  /** `SetLayout`: the layout keeps exactly the builder's bindings. */
  class SetLayout {
    const bindings: Bindings

    constructor (builder: Builder)
      ensures bindings == builder.bindings
    {
      bindings := builder.bindings;
    }

    predicate HasBinding(binding: nat)
    {
      binding in bindings
    }

    function Binding(binding: nat): (r: Result<LayoutBinding>)
      ensures r.Ok? <==> HasBinding(binding)
      ensures r.Ok? ==> r.value == bindings[binding]
    {
      if binding in bindings then Ok(bindings[binding]) else Err("unordered_map::at: key not found")
    }
  }
}
