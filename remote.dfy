/** The registry that pairs native engine objects with their managed
    script counterparts (`Scripting::Remote<T>`, src/scripting/remote.h):
    `local` maps a managed object to the native one, `remote` maps a
    native object to the wrapper of its managed object. Each native class
    has its own pair of maps; one `Registry` is one such pair. */
module ScriptRemote {
  import opened Wrappers

  /** A managed (`MonoObject*`) and a native (`T*`) object, by identity. */
  type Handle = nat
  type Native = nat

  /** The `Scripting::Object` wrapper `remote` stores: the managed object
      it holds. */
  datatype Wrapper = Wrapper(handle: Handle)

  /** Every managed object maps to a native one whose wrapper holds it,
      and every wrapper's managed object maps back to its native one. */
  ghost predicate Paired(local: map<Handle, Native>, remote: map<Native, Wrapper>)
  {
    && (forall h :: h in local ==> local[h] in remote && remote[local[h]].handle == h)
    && (forall n :: n in remote ==> remote[n].handle in local && local[remote[n].handle] == n)
  }

  /** Paired maps have as many entries as each other, so
      `LocalInstanceCount` and `RemoteInstanceCount` agree. */
  lemma {:induction false} PairedCounts(local: map<Handle, Native>, remote: map<Native, Wrapper>)
    requires Paired(local, remote)
    ensures |local| == |remote|
    decreases |local|
  {
    if local == map[] {
      assert remote.Keys == {};
    } else {
      var h :| h in local;
      var n := local[h];
      var local', remote' := local - {h}, remote - {n};
      assert Paired(local', remote');
      PairedCounts(local', remote');
    }
  }

  /** `AddRemoteInstance` as the source writes it: a managed object
      already registered throws; otherwise both maps are written, even
      when this native object already has a wrapper. */
  function AddAsWritten(local: map<Handle, Native>, remote: map<Native, Wrapper>, self: Native, obj: Handle)
    : (r: Result<(map<Handle, Native>, map<Native, Wrapper>)>)
    ensures r.Err? <==> obj in local
    ensures r.Ok? ==> r.value == (local[obj := self], remote[self := Wrapper(obj)])
  {
    if obj in local then Err("Local instance already exists")
    else Ok((local[obj := self], remote[self := Wrapper(obj)]))
  }

  /** A native object that already has a managed counterpart and is given
      a second one keeps a stale entry for the first: the maps stop being
      paired, and once the object is destroyed the first managed object
      still maps to it. */
  lemma AddAsWrittenLeavesStaleEntry()
    ensures (var r := AddAsWritten(map[1 := 7], map[7 := Wrapper(1)], 7, 2);
      && r.Ok?
      && !Paired(r.value.0, r.value.1)
      && (var (local, remote) := Destroyed(r.value.0, r.value.1, 7); 1 in local && local[1] == 7 && 7 !in remote))
  {
    var r := AddAsWritten(map[1 := 7], map[7 := Wrapper(1)], 7, 2);
    assert 1 in r.value.0 && r.value.0[1] == 7 && r.value.1[7].handle == 2;
  }

  /** `AddRemoteInstance` with the check it evidently needs: a native
      object that already has a wrapper throws as a registered managed
      object does. */
  function AddChecked(local: map<Handle, Native>, remote: map<Native, Wrapper>, self: Native, obj: Handle)
    : (r: Result<(map<Handle, Native>, map<Native, Wrapper>)>)
    ensures r.Err? <==> obj in local || self in remote
    ensures r.Ok? ==> r.value == (local[obj := self], remote[self := Wrapper(obj)])
  {
    if obj in local then Err("Local instance already exists")
    else if self in remote then Err("Remote instance already exists")
    else Ok((local[obj := self], remote[self := Wrapper(obj)]))
  }

  /** The checked add keeps the maps paired and adds one entry to each. */
  lemma AddCheckedKeepsPaired(local: map<Handle, Native>, remote: map<Native, Wrapper>, self: Native, obj: Handle)
    requires Paired(local, remote)
    ensures (var r := AddChecked(local, remote, self, obj);
      r.Ok? ==> Paired(r.value.0, r.value.1) && |r.value.0| == |local| + 1 && |r.value.1| == |remote| + 1)
  {
  }

  /** The destructor: a native object with a wrapper loses it, and its
      managed object its entry; one without changes nothing. */
  function Destroyed(local: map<Handle, Native>, remote: map<Native, Wrapper>, self: Native)
    : (r: (map<Handle, Native>, map<Native, Wrapper>))
    ensures self !in remote ==> r == (local, remote)
    ensures self in remote ==> r == (local - {remote[self].handle}, remote - {self})
  {
    if self in remote then (local - {remote[self].handle}, remote - {self}) else (local, remote)
  }

  /** Destroying a registered object keeps the maps paired and removes
      one entry from each. */
  lemma DestroyedKeepsPaired(local: map<Handle, Native>, remote: map<Native, Wrapper>, self: Native)
    requires Paired(local, remote) && self in remote
    ensures (var (l, r) := Destroyed(local, remote, self);
      Paired(l, r) && |l| == |local| - 1 && |r| == |remote| - 1 && self !in r)
  {
  }

  /** The maps of one native class. */
  class Registry {
    var local: map<Handle, Native>
    var remote: map<Native, Wrapper>

    ghost predicate Valid()
      reads this
    {
      Paired(local, remote)
    }

    constructor ()
      ensures local == map[] && remote == map[] && Valid()
    {
      local, remote := map[], map[];
    }

    /** `LocalInstance`: the native object of a managed one; an
        unregistered one throws. */
    function LocalInstance(obj: Handle): (r: Result<Native>)
      reads this
      ensures r.Ok? <==> obj in local
      ensures r.Ok? ==> r.value == local[obj]
      ensures Valid() && r.Ok? ==> r.value in remote && remote[r.value].handle == obj
    {
      if obj in local then Ok(local[obj]) else Err("Local instance not found")
    }

    /** `RemoteInstance`: the wrapper of `self`, created on first use
        around `made`, a managed object the runtime has just made and
        that no entry names yet. */
    method RemoteInstance(self: Native, made: Handle) returns (w: Wrapper)
      requires Valid() && made !in local
      modifies this
      ensures Valid()
      ensures self in old(remote) ==> w == old(remote)[self] && local == old(local) && remote == old(remote)
      ensures self !in old(remote) ==> (w == Wrapper(made) && local == old(local)[made := self]
        && remote == old(remote)[self := w])
      ensures remote[self] == w && LocalInstance(w.handle) == Ok(self)
    {
      if self in remote {
        return remote[self];
      }
      w := Wrapper(made);
      remote := remote[self := w];
      local := local[made := self];
    }

    /** `LocalInstanceCount`. */
    function LocalInstanceCount(): (n: nat)
      reads this
      ensures Valid() ==> n == |remote|
    {
      PairedCountsIfValid();
      |local|
    }

    /** `RemoteInstanceCount`. */
    function RemoteInstanceCount(): (n: nat)
      reads this
      ensures Valid() ==> n == |local|
    {
      PairedCountsIfValid();
      |remote|
    }

    lemma PairedCountsIfValid()
      ensures Valid() ==> |local| == |remote|
    {
      if Valid() {
        PairedCounts(local, remote);
      }
    }

    /** `AddRemoteInstance`, with the check on the native object the
        source leaves out (see `AddAsWrittenLeavesStaleEntry`). */
    method AddRemoteInstance(self: Native, obj: Handle) returns (r: Result<()>)
      requires Valid()
      modifies this
      ensures Valid()
      ensures r.Err? <==> obj in old(local) || self in old(remote)
      ensures r.Err? ==> local == old(local) && remote == old(remote)
      ensures r.Ok? ==> LocalInstance(obj) == Ok(self) && remote[self] == Wrapper(obj)
      ensures r.Ok? ==> |local| == |old(local)| + 1 && |remote| == |old(remote)| + 1
    {
      AddCheckedKeepsPaired(local, remote, self, obj);
      match AddChecked(local, remote, self, obj)
      case Err(msg) =>
        return Err(msg);
      case Ok((l, m)) =>
        local, remote := l, m;
        return Ok(());
    }

    /** The destructor of a native object. */
    method Destroy(self: Native)
      requires Valid()
      modifies this
      ensures Valid() && self !in remote
      ensures (local, remote) == Destroyed(old(local), old(remote), self)
      ensures self in old(remote) ==> |local| == |old(local)| - 1 && |remote| == |old(remote)| - 1
    {
      if self in remote {
        DestroyedKeepsPaired(local, remote, self);
      }
      local, remote := Destroyed(local, remote, self).0, Destroyed(local, remote, self).1;
    }
  }
}
