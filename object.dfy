/** Scene objects (`src/components/object.h`, `src/components/object.cpp`):
    a transform, a component store keyed by component type, a registry of
    live objects keyed by uuid, and the search over an object's subtree. */
module SceneObject {
  import opened Wrappers

  /** A boost uuid, taken as an opaque number. */
  type Uuid = nat
  /** The `std::type_index` of a component class. */
  type TypeTag = nat
  /** The address of a stored component or object. */
  type Handle = nat

  datatype Vec3 = Vec3(x: real, y: real, z: real)

  datatype Transform = Transform(position: Vec3, rotation: Vec3, scale: Vec3)

  /** The default `Transform`: at the origin, unrotated, unit scale. */
  function DefaultTransform(): (t: Transform)
    ensures t.position == Vec3(0.0, 0.0, 0.0) && t.rotation == Vec3(0.0, 0.0, 0.0)
    ensures t.scale == Vec3(1.0, 1.0, 1.0)
  {
    var zero := Vec3(0.0, 0.0, 0.0);
    Transform(zero, zero, Vec3(1.0, 1.0, 1.0))
  }

  /** An object's component store: at most one component per type. */
  class Object {
    const id: Uuid
    const name: string
    var components: map<TypeTag, Handle>

    constructor (id: Uuid, name: string)
      ensures this.id == id && this.name == name && components == map[]
    {
      this.id, this.name := id, name;
      components := map[];
    }

    /** `Get<T>`: the stored component of type `t`, none when absent. */
    function Get(t: TypeTag): (r: Option<Handle>)
      reads this
      ensures r.None? <==> t !in components
      ensures r.Some? ==> t in components && r.value == components[t]
    {
      if t in components then Some(components[t]) else None
    }

    /** `Add<T>`: refuses (null) when a `t` component is stored, else stores
        the new component `c` and returns it. */
    method Add(t: TypeTag, c: Handle) returns (r: Option<Handle>)
      modifies this`components
      ensures t in old(components) ==> r == None && components == old(components)
      ensures t !in old(components) ==> r == Some(c) && components == old(components)[t := c]
    {
      if t in components {
        return None;
      }
      components := components[t := c];
      r := Some(c);
    }

    /** `Remove<T>`: erases the `t` component; no-op when there is none. */
    method Remove(t: TypeTag)
      modifies this`components
      ensures components == old(components) - {t}
      ensures t !in old(components) ==> components == old(components)
    {
      if t !in components {
        return;
      }
      components := components - {t};
    }
  }

  /** Adding a type not yet stored and removing it again restores the
      store; the add is then visible to `Get`, and other types are not
      affected. */
  lemma AddThenRemove(m: map<TypeTag, Handle>, t: TypeTag, c: Handle, u: TypeTag)
    requires t !in m
    ensures m[t := c] - {t} == m
    ensures u != t ==> (u in m[t := c] <==> u in m)
  {
  }

  /** `Components()`: one entry per stored component, whatever order the
      store is walked in. */
  method Components(m: map<TypeTag, Handle>) returns (r: seq<Handle>)
    ensures |r| == |m.Keys|
    ensures forall t :: t in m ==> m[t] in r
    ensures forall x :: x in r ==> x in m.Values
  {
    r := [];
    var left := m.Keys;
    while left != {}
      invariant left <= m.Keys
      invariant |r| + |left| == |m.Keys|
      invariant forall t :: t in m && t !in left ==> m[t] in r
      invariant forall x :: x in r ==> x in m.Values
      decreases |left|
    {
      var t :| t in left;
      r := r + [m[t]];
      left := left - {t};
    }
  }

  /** `GetFromChildren<T>`: over the children's stores, in iteration order,
      the `t` component of the first child holding one. */
  method GetFromChildren(children: seq<map<TypeTag, Handle>>, t: TypeTag) returns (r: Option<Handle>)
    ensures r.None? <==> forall i :: 0 <= i < |children| ==> t !in children[i]
    ensures r.Some? ==> exists i :: 0 <= i < |children| && t in children[i] && r.value == children[i][t] &&
                                    forall j :: 0 <= j < i ==> t !in children[j]
  {
    var i := 0;
    while i < |children|
      invariant i <= |children|
      invariant forall j :: 0 <= j < i ==> t !in children[j]
    {
      if t in children[i] {
        return Some(children[i][t]);
      }
      i := i + 1;
    }
    r := None;
  }

  /** The static registry of live objects, keyed by uuid. */
  class Registry {
    var objects: map<Uuid, Handle>

    constructor ()
      ensures objects == map[]
    {
      objects := map[];
    }

    /** The `Object` constructor registers the new object under its uuid. */
    method Construct(id: Uuid, o: Handle)
      modifies this
      ensures objects == old(objects)[id := o]
    {
      objects := objects[id := o];
    }

    /** The `Object` destructor erases its uuid. */
    method Destroy(id: Uuid)
      modifies this
      ensures objects == old(objects) - {id}
    {
      objects := objects - {id};
    }

    /** `Component::Owner`: the object registered under the owner's uuid;
        the map's `at` throws when it is gone. */
    function Owner(ownerId: Uuid): (r: Result<Handle>)
      reads this
      ensures r.Ok? <==> ownerId in objects
      ensures r.Ok? ==> r.value == objects[ownerId]
    {
      if ownerId in objects then Ok(objects[ownerId]) else Err("unordered_map::at")
    }
  }

  /** An object's lifetime: registered from construction, unregistered at
      destruction, after which its components' `Owner` fails. */
  lemma ConstructThenDestroy(objects: map<Uuid, Handle>, id: Uuid, o: Handle)
    requires id !in objects
    ensures id in objects[id := o] && objects[id := o][id] == o
    ensures objects[id := o] - {id} == objects
  {
  }

  /** An object with its owned children, as `Find` walks it. */
  datatype Tree = Tree(id: Uuid, name: string, children: seq<Tree>)

  /** The uuids in a subtree. */
  function Ids(o: Tree): set<Uuid>
    decreases o, |o.children| + 1
  {
    {o.id} + IdsFrom(o, 0)
  }

  function IdsFrom(o: Tree, i: nat): set<Uuid>
    requires i <= |o.children|
    decreases o, |o.children| - i
  {
    if i == |o.children| then {} else Ids(o.children[i]) + IdsFrom(o, i + 1)
  }

  /** `Find`: the object itself when the ids match, else the first hit of
      the children's searches in order, else none. */
  function Find(o: Tree, id: Uuid): (r: Option<Tree>)
    ensures r.Some? ==> r.value.id == id
    ensures r.None? <==> id !in Ids(o)
    ensures o.id == id ==> r == Some(o)
    decreases o, |o.children| + 1
  {
    if id == o.id then Some(o) else FindFrom(o, 0, id)
  }

  /** The search over the children of `o` from the `i`-th on. */
  function FindFrom(o: Tree, i: nat, id: Uuid): (r: Option<Tree>)
    requires i <= |o.children|
    ensures r.Some? ==> r.value.id == id
    ensures r.None? <==> id !in IdsFrom(o, i)
    decreases o, |o.children| - i
  {
    if i == |o.children| then None
    else
      var hit := Find(o.children[i], id);
      if hit.Some? then hit else FindFrom(o, i + 1, id)
  }

  /** The children's search order: a child holding `id` in its subtree is
      the one searched when no earlier child holds it. */
  lemma {:induction false} FindFirstChild(o: Tree, i: nat, id: Uuid)
    requires i < |o.children| && o.id != id && id in Ids(o.children[i])
    requires forall j :: 0 <= j < i ==> id !in Ids(o.children[j])
    ensures Find(o, id) == Find(o.children[i], id)
  {
    FindFromSkips(o, 0, i, id);
  }

  lemma {:induction false} FindFromSkips(o: Tree, k: nat, i: nat, id: Uuid)
    requires k <= i < |o.children| && id in Ids(o.children[i])
    requires forall j :: k <= j < i ==> id !in Ids(o.children[j])
    ensures FindFrom(o, k, id) == Find(o.children[i], id)
    decreases i - k
  {
    if k < i {
      FindFromSkips(o, k + 1, i, id);
    }
  }
}
