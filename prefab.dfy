/** Prefab loading (`src/assets/prefab.cpp`): a metadata document turned
    into entities, one per recorded object, with their render targets,
    lights and cameras, linked under their parents. Entities are held by
    the uuid of the object they come from; the scene the root entity is
    finally handed to is not modelled. */
module Prefab {
  import opened Wrappers
  import opened SceneObject
  import Importer
  import AssetManager

  /** `ECS::Light`: the two types a prefab can produce. */
  datatype Light =
    | PointLight(color: Vec3, attenuation: Vec3, range: real)
    | DirectionalLight(color: Vec3, direction: Vec3, intensity: real)

  /** The warm colour, the attenuation and the range every point light
      gets, whatever the document says. */
  const PointColor := Vec3(1.0, 0.8, 0.6)
  const PointAttenuation := Vec3(1.0, 0.09, 0.032)
  const PointRange := 3.0
  /** The colour every directional light gets. */
  const White := Vec3(1.0, 1.0, 1.0)

  /** One mesh of a render target: the store's mesh and material for the
      recorded uuids, or none (a null pointer) when the store lacks one. */
  type Part = (Option<AssetManager.Mesh>, Option<AssetManager.Material>)

  /** An entity: its name and transform, its render target when it has
      one, its lights and cameras in document order, and its children by
      object uuid. */
  datatype Entity = Entity(name: string, transform: Transform, target: Option<seq<Part>>,
                           lights: seq<Light>, cameras: seq<Importer.Projection>, children: seq<Uuid>)

  const Point := "aiLightSource_POINT"
  const Directional := "aiLightSource_DIRECTIONAL"

  /** The light a recorded light turns into: a point light with the fixed
      defaults, a directional light with the recorded direction and
      intensity; any other type fails. */
  function ParseLight(e: Importer.LightEntry): (r: Result<Light>)
    requires Readable(e)
    ensures r.Ok? <==> e.kind == Point || e.kind == Directional
    ensures e.kind == Point ==> r == Ok(PointLight(PointColor, PointAttenuation, PointRange))
    ensures e.kind == Directional ==> r == Ok(DirectionalLight(White, e.direction.value, e.intensity.value))
    ensures r.Err? ==> r.msg == "Unknown light type: " + e.kind
  {
    if e.kind == Point then Ok(PointLight(PointColor, PointAttenuation, PointRange))
    else if e.kind == Directional then Ok(DirectionalLight(White, e.direction.value, e.intensity.value))
    else Err("Unknown light type: " + e.kind)
  }

  /** The lights the importer records: exactly the directional and point
      lights load, a spot light or any other type does not, and a
      directional light keeps its direction at intensity 1. */
  lemma RecordedLightTypes(l: Importer.AiLight)
    ensures ParseLight(Importer.LightOf(l)).Ok? <==> l.kind == Importer.Directional || l.kind == Importer.Point
    ensures l.kind == Importer.Directional ==> ParseLight(Importer.LightOf(l)) == Ok(DirectionalLight(White, l.direction, 1.0))
  {
    Importer.KindNameInjective(l.kind, Importer.Directional);
    Importer.KindNameInjective(l.kind, Importer.Point);
  }

  /** What `Load` reads without checking (a missing key read through the
      const document is undefined): every named parent, light and camera
      is recorded, and a directional light has its direction and
      intensity. */
  ghost predicate WellFormed(m: Importer.Meta)
  {
    forall u :: u in m.objects ==> ObjectWellFormed(m, u)
  }

  /** Object `u`'s parent, lights and cameras can be read. */
  ghost predicate ObjectWellFormed(m: Importer.Meta, u: Uuid)
    requires u in m.objects
  {
    var o := m.objects[u];
    && (o.parent != Importer.Nil ==> o.parent in m.objects)
    && (forall i :: 0 <= i < |o.lights| ==> o.lights[i] in m.lights && Readable(m.lights[o.lights[i]]))
    && (forall i :: 0 <= i < |o.cameras| ==> o.cameras[i] in m.cameras)
  }

  /** A directional light has its direction and intensity. */
  predicate Readable(e: Importer.LightEntry)
  {
    e.kind == Directional ==> e.direction.Some? && e.intensity.Some?
  }

  /** A document the importer wrote is well formed. */
  lemma ImportedWellFormed(s: Importer.AiScene, dir: string, m: Importer.Meta, nodeOf: map<Uuid, Importer.AiNode>, root: Uuid,
                           lightsFirst: Uuid, camerasFirst: Uuid)
    requires Importer.Imported(s, dir, m, nodeOf, root, lightsFirst, camerasFirst)
    ensures WellFormed(m)
  {
    forall u | u in m.objects
      ensures ObjectWellFormed(m, u)
    {
      RecordedObject(s, m, nodeOf, root, lightsFirst, camerasFirst, u);
    }
  }

  /** An object of such a document can be read. */
  lemma RecordedObject(s: Importer.AiScene, m: Importer.Meta, nodeOf: map<Uuid, Importer.AiNode>, root: Uuid,
                       lightsFirst: Uuid, camerasFirst: Uuid, u: Uuid)
    requires m.objects.Keys == nodeOf.Keys && Importer.Linked(m.objects, nodeOf, root)
    requires Importer.LightsRecorded(s, m.lights, lightsFirst, |s.lights|) && Importer.LightsAttached(s, m.objects, lightsFirst, |s.lights|)
    requires Importer.CamerasRecorded(s, m.cameras, camerasFirst, |s.cameras|) && Importer.CamerasAttached(s, m.objects, camerasFirst, |s.cameras|)
    requires u in m.objects
    ensures ObjectWellFormed(m, u)
  {
    var o := m.objects[u];
    forall i | 0 <= i < |o.lights|
      ensures o.lights[i] in m.lights && Readable(m.lights[o.lights[i]])
    {
      RecordedReadable(s.lights[o.lights[i] - lightsFirst]);
    }
  }

  /** A light the importer records can be read. */
  lemma RecordedReadable(l: Importer.AiLight)
    ensures Readable(Importer.LightOf(l))
  {
    Importer.KindNameInjective(l.kind, Importer.Directional);
  }

  function Lookup<V>(m: map<Uuid, V>, u: Uuid): (r: Option<V>)
    ensures r.Some? <==> u in m
    ensures r.Some? ==> r.value == m[u]
  {
    if u in m then Some(m[u]) else None
  }

  /** Object `u`'s lights all parse. */
  ghost predicate Loads(m: Importer.Meta, u: Uuid)
    requires WellFormed(m) && u in m.objects
  {
    forall i :: 0 <= i < |m.objects[u].lights| ==> ParseLight(m.lights[m.objects[u].lights[i]]).Ok?
  }

  /** The lights of an object: each recorded uuid parsed in turn; the
      first of an unknown type fails them all. */
  method LoadLights(m: Importer.Meta, u: Uuid) returns (r: Result<seq<Light>>)
    requires WellFormed(m) && u in m.objects
    ensures r.Ok? <==> Loads(m, u)
    ensures r.Ok? ==> LightsOf(m, u, r.value)
    ensures r.Err? ==> FailsWith(m, u, r.msg)
  {
    var ids := m.objects[u].lights;
    var out: seq<Light> := [];
    for i := 0 to |ids|
      invariant |out| == i
      invariant forall j :: 0 <= j < i ==> ParseLight(m.lights[ids[j]]) == Ok(out[j])
    {
      var parsed := ParseLight(m.lights[ids[i]]);
      if parsed.Err? {
        return Err(parsed.msg);
      }
      out := out + [parsed.value];
    }
    r := Ok(out);
  }

  /** One of object `u`'s lights fails to parse with message `msg`. */
  ghost predicate FailsWith(m: Importer.Meta, u: Uuid, msg: string)
    requires WellFormed(m) && u in m.objects
  {
    exists i :: 0 <= i < |m.objects[u].lights| && ParseLight(m.lights[m.objects[u].lights[i]]) == Err(msg)
  }

  /** `lights` are object `u`'s lights, parsed. */
  ghost predicate LightsOf(m: Importer.Meta, u: Uuid, lights: seq<Light>)
    requires WellFormed(m) && u in m.objects
  {
    var ids := m.objects[u].lights;
    |lights| == |ids| && forall i :: 0 <= i < |ids| ==> ParseLight(m.lights[ids[i]]) == Ok(lights[i])
  }

  /** The cameras of an object: each recorded uuid's projection. */
  method LoadCameras(m: Importer.Meta, u: Uuid) returns (r: seq<Importer.Projection>)
    requires WellFormed(m) && u in m.objects
    ensures CamerasOf(m, u, r)
  {
    var ids := m.objects[u].cameras;
    r := [];
    for i := 0 to |ids|
      invariant |r| == i
      invariant forall j :: 0 <= j < i ==> r[j] == m.cameras[ids[j]]
    {
      r := r + [m.cameras[ids[i]]];
    }
  }

  /** `cameras` are object `u`'s cameras. */
  ghost predicate CamerasOf(m: Importer.Meta, u: Uuid, cameras: seq<Importer.Projection>)
    requires WellFormed(m) && u in m.objects
  {
    var ids := m.objects[u].cameras;
    |cameras| == |ids| && forall i :: 0 <= i < |ids| ==> cameras[i] == m.cameras[ids[i]]
  }

  /** The render target of an object: none when it lists no meshes, else
      one part per listed mesh, in order, each the stored mesh and
      material of its uuids. */
  method LoadTarget(refs: seq<Importer.MeshRef>, meshes: map<Uuid, AssetManager.Mesh>, materials: map<Uuid, AssetManager.Material>)
    returns (r: Option<seq<Part>>)
    ensures Targets(refs, meshes, materials, r)
  {
    if refs == [] {
      return None;
    }
    var parts: seq<Part> := [];
    for i := 0 to |refs|
      invariant |parts| == i
      invariant forall j :: 0 <= j < i ==> parts[j] == (Lookup(meshes, refs[j].mesh), Lookup(materials, refs[j].material))
    {
      parts := parts + [(Lookup(meshes, refs[i].mesh), Lookup(materials, refs[i].material))];
    }
    r := Some(parts);
  }

  /** `target` is the render target of `refs`. */
  ghost predicate Targets(refs: seq<Importer.MeshRef>, meshes: map<Uuid, AssetManager.Mesh>, materials: map<Uuid, AssetManager.Material>,
                          target: Option<seq<Part>>)
  {
    && (target.None? <==> refs == [])
    && (target.Some? ==> |target.value| == |refs| && forall i :: 0 <= i < |refs| ==>
          target.value[i] == (Lookup(meshes, refs[i].mesh), Lookup(materials, refs[i].material)))
  }

  /** Entity `e` carries object `u`'s render target, lights and cameras. */
  ghost predicate Equipped(m: Importer.Meta, meshes: map<Uuid, AssetManager.Mesh>, materials: map<Uuid, AssetManager.Material>,
                           u: Uuid, e: Entity)
    requires WellFormed(m) && u in m.objects
  {
    Targets(m.objects[u].meshes, meshes, materials, e.target) && LightsOf(m, u, e.lights) && CamerasOf(m, u, e.cameras)
  }

  /** No uuid occurs twice in `s`. */
  ghost predicate Distinct(s: seq<Uuid>)
  {
    forall i, j :: 0 <= i < j < |s| ==> s[i] != s[j]
  }

  /** One entity per object, with its name and transform; the visited
      ones equipped, the others bare. */
  ghost predicate Equips(m: Importer.Meta, meshes: map<Uuid, AssetManager.Mesh>, materials: map<Uuid, AssetManager.Material>,
                         entities: map<Uuid, Entity>, done: set<Uuid>)
    requires WellFormed(m)
  {
    && entities.Keys == m.objects.Keys && done <= m.objects.Keys
    && forall u :: u in entities ==>
         && entities[u].name == m.objects[u].name && entities[u].transform == m.objects[u].transform
         && (u !in done ==> entities[u].target.None? && entities[u].lights == [] && entities[u].cameras == [])
         && (u in done ==> Equipped(m, meshes, materials, u, entities[u]))
  }

  /** Each entity's children are exactly the visited objects naming it as
      parent, once each; the nil parent adopts no one. */
  ghost predicate Parented(m: Importer.Meta, entities: map<Uuid, Entity>, done: set<Uuid>)
    requires entities.Keys == m.objects.Keys && done <= m.objects.Keys
  {
    forall u :: u in entities ==>
      && Distinct(entities[u].children)
      && forall c :: c in entities[u].children <==> c in done && m.objects[c].parent == u != Importer.Nil
  }

  /** `root` is a visited object with the nil parent; none when no visited
      object has it. */
  ghost predicate Rooted(m: Importer.Meta, done: set<Uuid>, root: Option<Uuid>)
    requires done <= m.objects.Keys
  {
    && (root.Some? ==> root.value in done && m.objects[root.value].parent == Importer.Nil)
    && (root.None? ==> forall u :: u in done ==> m.objects[u].parent != Importer.Nil)
  }

  /** The first loop: one entity per object, with its name and transform
      and nothing else yet. */
  method CreateEntities(objects: map<Uuid, Importer.ObjectEntry>) returns (entities: map<Uuid, Entity>)
    ensures entities.Keys == objects.Keys
    ensures forall u :: u in entities ==> entities[u] == Entity(objects[u].name, objects[u].transform, None, [], [], [])
  {
    entities := map[];
    var left := objects.Keys;
    while left != {}
      invariant left <= objects.Keys
      invariant entities.Keys == objects.Keys - left
      invariant forall u :: u in entities ==> entities[u] == Entity(objects[u].name, objects[u].transform, None, [], [], [])
      decreases |left|
    {
      var u :| u in left;
      entities := entities[u := Entity(objects[u].name, objects[u].transform, None, [], [], [])];
      left := left - {u};
    }
  }

  /** Equipping object `u` keeps the others as they were. */
  lemma EquipStep(m: Importer.Meta, meshes: map<Uuid, AssetManager.Mesh>, materials: map<Uuid, AssetManager.Material>,
                  entities: map<Uuid, Entity>, done: set<Uuid>, u: Uuid, e: Entity)
    requires WellFormed(m) && Equips(m, meshes, materials, entities, done) && u in m.objects && u !in done
    requires e.name == entities[u].name && e.transform == entities[u].transform && Equipped(m, meshes, materials, u, e)
    ensures Equips(m, meshes, materials, entities[u := e], done + {u})
  {
  }

  /** Linking visited object `u` under its parent keeps every child list
      exact; equipping does not touch the child lists. */
  lemma ParentStep(m: Importer.Meta, entities: map<Uuid, Entity>, done: set<Uuid>, u: Uuid, e: Entity)
    requires entities.Keys == m.objects.Keys && done <= m.objects.Keys && WellFormed(m)
    requires Parented(m, entities, done) && u in m.objects && u !in done && e.children == entities[u].children
    ensures var p := m.objects[u].parent;
            var equipped := entities[u := e];
            p != Importer.Nil ==> Parented(m, equipped[p := equipped[p].(children := equipped[p].children + [u])], done + {u})
    ensures m.objects[u].parent == Importer.Nil ==> Parented(m, entities[u := e], done + {u})
  {
    var p := m.objects[u].parent;
    var equipped := entities[u := e];
    if p != Importer.Nil {
      var after := equipped[p := equipped[p].(children := equipped[p].children + [u])];
      forall x | x in after
        ensures Distinct(after[x].children)
        ensures forall c :: c in after[x].children <==> c in done + {u} && m.objects[c].parent == x != Importer.Nil
      {
        if x == p {
          assert u !in entities[p].children;
          assert after[x].children == entities[p].children + [u];
        } else {
          assert after[x].children == entities[x].children;
        }
      }
    } else {
      forall x | x in equipped
        ensures Distinct(equipped[x].children)
        ensures forall c :: c in equipped[x].children <==> c in done + {u} && m.objects[c].parent == x != Importer.Nil
      {
        assert equipped[x].children == entities[x].children;
      }
    }
  }

  /** Every object loaded: its entity equipped and linked under its
      parent, and the root one with the nil parent. */
  ghost predicate Built(m: Importer.Meta, meshes: map<Uuid, AssetManager.Mesh>, materials: map<Uuid, AssetManager.Material>,
                        entities: map<Uuid, Entity>, root: Option<Uuid>)
    requires WellFormed(m)
  {
    && Equips(m, meshes, materials, entities, m.objects.Keys)
    && Parented(m, entities, m.objects.Keys)
    && Rooted(m, m.objects.Keys, root)
  }

  /** The state after visiting the objects in `done`. */
  ghost predicate Progress(m: Importer.Meta, meshes: map<Uuid, AssetManager.Mesh>, materials: map<Uuid, AssetManager.Material>,
                           entities: map<Uuid, Entity>, done: set<Uuid>, root: Option<Uuid>)
    requires WellFormed(m)
  {
    && Equips(m, meshes, materials, entities, done)
    && Parented(m, entities, done)
    && Rooted(m, done, root)
    && forall u :: u in done ==> Loads(m, u)
  }

  /** `AddChild`: `u` appended to the children of entity `p`. */
  function Adopt(entities: map<Uuid, Entity>, p: Uuid, u: Uuid): (r: map<Uuid, Entity>)
    requires p in entities
    ensures r.Keys == entities.Keys && r[p].children == entities[p].children + [u]
    ensures forall x :: x in r ==> r[x] == if x == p then entities[p].(children := r[p].children) else entities[x]
  {
    entities[p := entities[p].(children := entities[p].children + [u])]
  }

  /** Changing a child list keeps every entity's equipment. */
  lemma AdoptKeeps(m: Importer.Meta, meshes: map<Uuid, AssetManager.Mesh>, materials: map<Uuid, AssetManager.Material>,
                   entities: map<Uuid, Entity>, done: set<Uuid>, p: Uuid, u: Uuid)
    requires WellFormed(m) && Equips(m, meshes, materials, entities, done) && p in entities
    ensures Equips(m, meshes, materials, Adopt(entities, p, u), done)
  {
    var after := Adopt(entities, p, u);
    forall x | x in after && x in done
      ensures Equipped(m, meshes, materials, x, after[x])
    {
      assert Equipped(m, meshes, materials, x, entities[x]);
    }
  }

  /** Visiting object `u` with a parent: equipping its entity and linking
      it under the parent. */
  lemma LinkStep(m: Importer.Meta, meshes: map<Uuid, AssetManager.Mesh>, materials: map<Uuid, AssetManager.Material>,
                 entities: map<Uuid, Entity>, done: set<Uuid>, root: Option<Uuid>, u: Uuid, e: Entity)
    requires WellFormed(m) && Progress(m, meshes, materials, entities, done, root) && u in m.objects && u !in done
    requires e.name == entities[u].name && e.transform == entities[u].transform && e.children == entities[u].children
    requires Equipped(m, meshes, materials, u, e) && m.objects[u].parent != Importer.Nil
    ensures Progress(m, meshes, materials, Adopt(entities[u := e], m.objects[u].parent, u), done + {u}, root)
  {
    EquipStep(m, meshes, materials, entities, done, u, e);
    ParentStep(m, entities, done, u, e);
    AdoptKeeps(m, meshes, materials, entities[u := e], done + {u}, m.objects[u].parent, u);
    assert Loads(m, u);
  }

  /** Visiting object `u` with the nil parent: equipping its entity and
      making it the root. */
  lemma RootStep(m: Importer.Meta, meshes: map<Uuid, AssetManager.Mesh>, materials: map<Uuid, AssetManager.Material>,
                 entities: map<Uuid, Entity>, done: set<Uuid>, root: Option<Uuid>, u: Uuid, e: Entity)
    requires WellFormed(m) && Progress(m, meshes, materials, entities, done, root) && u in m.objects && u !in done
    requires e.name == entities[u].name && e.transform == entities[u].transform && e.children == entities[u].children
    requires Equipped(m, meshes, materials, u, e) && m.objects[u].parent == Importer.Nil
    ensures Progress(m, meshes, materials, entities[u := e], done + {u}, Some(u))
  {
    EquipStep(m, meshes, materials, entities, done, u, e);
    ParentStep(m, entities, done, u, e);
    assert Loads(m, u);
  }

  /** Moving `u` from the objects left to the visited ones. */
  lemma Visit(keys: set<Uuid>, left: set<Uuid>, done: set<Uuid>, u: Uuid)
    requires left <= keys && done == keys - left && u in left
    ensures left - {u} <= keys && done + {u} == keys - (left - {u}) && |left - {u}| < |left|
  {
  }

  /** `Asset::Prefab`: a name and the metadata document it loads. */
  datatype Prefab = Prefab(name: string, metadata: Importer.Meta)

  /** `Prefab::Load`: one entity per object, then, object by object, its
      render target from the store, its lights and cameras, and the link
      to its parent. A light of an unknown type aborts the load. */
  method Load(p: Prefab, mgr: AssetManager.Manager) returns (r: Result<(map<Uuid, Entity>, Option<Uuid>)>)
    requires WellFormed(p.metadata)
    ensures r.Ok? <==> forall u :: u in p.metadata.objects ==> Loads(p.metadata, u)
    ensures r.Ok? ==> Built(p.metadata, mgr.meshes, mgr.materials, r.value.0, r.value.1)
    ensures r.Err? ==> exists u :: u in p.metadata.objects && FailsWith(p.metadata, u, r.msg)
  {
    var m := p.metadata;
    var meshes, materials := mgr.meshes, mgr.materials;
    var entities := CreateEntities(m.objects);
    var root: Option<Uuid> := None;
    var done: set<Uuid> := {};
    var left := m.objects.Keys;
    while left != {}
      invariant left <= m.objects.Keys && done == m.objects.Keys - left
      invariant Progress(m, meshes, materials, entities, done, root)
      decreases |left|
    {
      var u :| u in left;
      var target := LoadTarget(m.objects[u].meshes, meshes, materials);
      var lights := LoadLights(m, u);
      if lights.Err? {
        return Err(lights.msg);
      }
      var cameras := LoadCameras(m, u);
      var e := entities[u].(target := target, lights := lights.value, cameras := cameras);
      var parent := m.objects[u].parent;
      if parent != Importer.Nil {
        LinkStep(m, meshes, materials, entities, done, root, u, e);
        entities := Adopt(entities[u := e], parent, u);
      } else {
        RootStep(m, meshes, materials, entities, done, root, u, e);
        entities := entities[u := e];
        root := Some(u);
      }
      Visit(m.objects.Keys, left, done, u);
      done := done + {u};
      left := left - {u};
    }
    r := Ok((entities, root));
  }
}
