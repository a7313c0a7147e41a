/** The scene importer (`src/assets/importer.cpp`): it walks an assimp
    scene and writes its metadata document (objects with their parent
    links, meshes and materials deduplicated by assimp index, textures
    deduplicated by path, lights and cameras attached to the objects that
    carry their names), then loads the recorded assets into the asset
    store once each. Assimp, stb_image and the JSON library are not
    modelled: the scene arrives as a value, the transforms already
    decomposed, and image files as a lookup. */
module Importer {
  import opened Wrappers
  import opened SceneObject
  import Text
  import Texture
  import AssetManager

  /** `boost::uuids::nil_uuid()`, the root object's parent. */
  const Nil: Uuid := 0

  /** The material texture types the importer records, in its order. */
  const TextureTypes: seq<Texture.AiTextureType> :=
    [Texture.BaseColor, Texture.Normals, Texture.Emissive, Texture.Metalness,
     Texture.DiffuseRoughness, Texture.Lightmap]

  /** The fixed uuid recorded for a texture type the material lacks:
      `…0003` for normals, `…0001` for metalness and roughness, `…0002`
      for base colour, emission and light maps. */
  function DefaultTexture(t: Texture.AiTextureType): (r: Uuid)
    requires t in TextureTypes
    ensures r == 3 <==> t == Texture.Normals
    ensures r == 1 <==> t == Texture.Metalness || t == Texture.DiffuseRoughness
    ensures r == 2 <==> t == Texture.BaseColor || t == Texture.Emissive || t == Texture.Lightmap
  {
    match t
    case BaseColor => 2
    case Normals => 3
    case Emissive => 2
    case Metalness => 1
    case DiffuseRoughness => 1
    case Lightmap => 2
  }

  /** When the store's id provider handed out `…0001`, `…0002`, `…0003` to
      its fallbacks in turn, every default uuid names a fallback: normals
      the flat normal, metalness and roughness black, the rest white. */
  lemma DefaultsAreFallbacks(t: Texture.AiTextureType)
    requires t in TextureTypes
    ensures DefaultTexture(t) in AssetManager.Fallbacks(1, 2, 3)
    ensures AssetManager.Fallbacks(1, 2, 3)[DefaultTexture(t)].name ==
              if t == Texture.Normals then "baseNormal"
              else if t == Texture.Metalness || t == Texture.DiffuseRoughness then "black"
              else "white"
  {
  }

  /** The file's directory and name: split at the last '/'; with none,
      both are the whole path. */
  function Split(path: string): (r: (string, string))
    ensures r.0 == Text.BeforeLast(path, {'/'}) && r.1 == Text.AfterLast(path, {'/'})
  {
    (Text.BeforeLast(path, {'/'}), Text.AfterLast(path, {'/'}))
  }

  lemma SplitParts(dir: string, name: string)
    requires forall k :: 0 <= k < |name| ==> name[k] != '/'
    ensures Split(dir + "/" + name) == (dir, name)
  {
    assert dir + "/" + name == dir + ['/'] + name;
    Text.SplitJoin(dir, '/', name, {'/'});
  }

  lemma SplitWithoutSlash(path: string)
    requires forall k :: 0 <= k < |path| ==> path[k] != '/'
    ensures Split(path) == (path, path)
  {
  }

  datatype AiMesh = AiMesh(name: string, materialIndex: nat)

  /** A material: its name, the relative path of each texture type it
      has, and the size `stbi_info` reports for its diffuse texture. */
  datatype AiMaterial = AiMaterial(name: string, textures: map<Texture.AiTextureType, string>, diffuseSize: Option<(nat, nat)>)

  /** A node: `transform` is none when its matrix is the identity. */
  datatype AiNode = AiNode(name: string, transform: Option<Transform>, meshes: seq<nat>, children: seq<AiNode>)

  datatype LightKind = Undefined | Directional | Point | Spot | Ambient | Area

  datatype AiLight = AiLight(name: string, kind: LightKind, direction: Vec3)

  /** A camera; `halfHeight` is its orthographic width over its aspect. */
  datatype AiCamera = AiCamera(name: string, fov: real, near: real, far: real, orthographicWidth: real, halfHeight: real)

  datatype AiScene = AiScene(meshes: seq<AiMesh>, materials: seq<AiMaterial>, root: AiNode, lights: seq<AiLight>, cameras: seq<AiCamera>)

  /** Every mesh a node lists exists, in its whole subtree. */
  predicate NodeOk(n: AiNode, meshCount: nat)
    decreases n, |n.children| + 2
  {
    && (forall i :: 0 <= i < |n.meshes| ==> n.meshes[i] < meshCount)
    && ChildrenOk(n, meshCount, 0)
  }

  predicate ChildrenOk(n: AiNode, meshCount: nat, i: nat)
    requires i <= |n.children|
    decreases n, |n.children| - i + 1
  {
    i == |n.children| || (NodeOk(n.children[i], meshCount) && ChildrenOk(n, meshCount, i + 1))
  }

  lemma {:induction false} ChildOk(n: AiNode, meshCount: nat, i: nat, j: nat)
    requires i <= j < |n.children| && ChildrenOk(n, meshCount, i)
    ensures NodeOk(n.children[j], meshCount)
    decreases j - i
  {
    if i < j {
      ChildOk(n, meshCount, i + 1, j);
    }
  }

  /** What assimp guarantees of a scene it returns: node meshes and mesh
      materials are in range. */
  predicate SceneOk(s: AiScene)
  {
    && NodeOk(s.root, |s.meshes|)
    && forall i :: 0 <= i < |s.meshes| ==> s.meshes[i].materialIndex < |s.materials|
  }

  /** The constructor's loop: the larger side of the largest diffuse
      texture, 0 when there is none. */
  method TextureSize(materials: seq<AiMaterial>) returns (size: nat)
    ensures forall i :: 0 <= i < |materials| && materials[i].diffuseSize.Some? ==>
              materials[i].diffuseSize.value.0 <= size && materials[i].diffuseSize.value.1 <= size
    ensures size == 0 || (exists i :: 0 <= i < |materials| && materials[i].diffuseSize.Some? &&
                           (size == materials[i].diffuseSize.value.0 || size == materials[i].diffuseSize.value.1))
  {
    size := 0;
    for i := 0 to |materials|
      invariant forall j :: 0 <= j < i && materials[j].diffuseSize.Some? ==>
                  materials[j].diffuseSize.value.0 <= size && materials[j].diffuseSize.value.1 <= size
      invariant size == 0 || (exists j :: 0 <= j < i && materials[j].diffuseSize.Some? &&
                               (size == materials[j].diffuseSize.value.0 || size == materials[j].diffuseSize.value.1))
    {
      if materials[i].diffuseSize.Some? {
        var (w, h) := materials[i].diffuseSize.value;
        var side := if w < h then h else w;
        if size < side {
          size := side;
        }
      }
    }
  }

  datatype MeshEntry = MeshEntry(id: nat, name: string)
  datatype MaterialEntry = MaterialEntry(id: nat, name: string, textures: map<Texture.AiTextureType, Uuid>)
  datatype TextureEntry = TextureEntry(path: string, size: nat, normalMap: bool)
  datatype MeshRef = MeshRef(mesh: Uuid, material: Uuid)
  datatype ObjectEntry = ObjectEntry(parent: Uuid, name: string, transform: Transform, meshes: seq<MeshRef>, lights: seq<Uuid>, cameras: seq<Uuid>)
  /** A light entry: its type is assimp's enumerator name; directional
      lights carry a direction and an intensity. */
  datatype LightEntry = LightEntry(name: string, kind: string, direction: Option<Vec3>, intensity: Option<real>)
  datatype Projection =
    | Perspective(fov: real, near: real, far: real)
    | Orthographic(left: real, right: real, bottom: real, top: real, near: real, far: real)

  /** The metadata document. */
  datatype Meta = Meta(meshes: map<Uuid, MeshEntry>, materials: map<Uuid, MaterialEntry>,
                       textures: map<Uuid, TextureEntry>, objects: map<Uuid, ObjectEntry>,
                       lights: map<Uuid, LightEntry>, cameras: map<Uuid, Projection>)

  const Empty := Meta(map[], map[], map[], map[], map[], map[])

  /** A search through a JSON object's entries for one that matches. */
  method FindKey<E>(m: map<Uuid, E>, matches: E -> bool) returns (r: Option<Uuid>)
    ensures r.Some? ==> r.value in m && matches(m[r.value])
    ensures r.None? ==> forall k :: k in m ==> !matches(m[k])
  {
    var left := m.Keys;
    while left != {}
      invariant left <= m.Keys
      invariant forall k :: k in m && k !in left ==> !matches(m[k])
      decreases |left|
    {
      var k :| k in left;
      if matches(m[k]) {
        return Some(k);
      }
      left := left - {k};
    }
    r := None;
  }

  /** At most one mesh entry per assimp mesh index. */
  ghost predicate MeshesUnique(meshes: map<Uuid, MeshEntry>)
  {
    forall a, b :: a in meshes && b in meshes && meshes[a].id == meshes[b].id ==> a == b
  }

  /** At most one material entry per assimp material index. */
  ghost predicate MaterialsUnique(materials: map<Uuid, MaterialEntry>)
  {
    forall a, b :: a in materials && b in materials && materials[a].id == materials[b].id ==> a == b
  }

  /** At most one texture entry per full path. */
  ghost predicate TexturesUnique(textures: map<Uuid, TextureEntry>)
  {
    forall a, b :: a in textures && b in textures && textures[a].path == textures[b].path ==> a == b
  }

  /** A material entry's slots record, for each texture type, the entry
      of the texture at its full path, or the type's default uuid, and
      name no other type. */
  ghost predicate SlotsResolved(s: AiScene, dir: string, id: nat, slots: map<Texture.AiTextureType, Uuid>, textures: map<Uuid, TextureEntry>)
    requires id < |s.materials|
  {
    && (forall t :: t in slots ==> t in TextureTypes)
    && forall t :: t in TextureTypes ==>
      && t in slots
      && (t in s.materials[id].textures ==>
            slots[t] in textures && textures[slots[t]].path == dir + "/" + s.materials[id].textures[t])
      && (t !in s.materials[id].textures ==> slots[t] == DefaultTexture(t))
  }

  ghost predicate MaterialsResolved(s: AiScene, dir: string, materials: map<Uuid, MaterialEntry>, textures: map<Uuid, TextureEntry>)
  {
    forall u :: u in materials ==> materials[u].id < |s.materials| && SlotsResolved(s, dir, materials[u].id, materials[u].textures, textures)
  }

  /** `b` keeps every entry of `a`. */
  ghost predicate Extends<E>(a: map<Uuid, E>, b: map<Uuid, E>)
  {
    forall u :: u in a ==> u in b && b[u] == a[u]
  }

  /** Recording more textures keeps every material's slots resolved. */
  lemma ResolvedExtend(s: AiScene, dir: string, materials: map<Uuid, MaterialEntry>, textures: map<Uuid, TextureEntry>, textures': map<Uuid, TextureEntry>)
    requires MaterialsResolved(s, dir, materials, textures) && Extends(textures, textures')
    ensures MaterialsResolved(s, dir, materials, textures')
  {
    forall u | u in materials
      ensures SlotsResolved(s, dir, materials[u].id, materials[u].textures, textures')
    {
      assert SlotsResolved(s, dir, materials[u].id, materials[u].textures, textures);
    }
  }

  /** Every uuid handed out so far lies in `[4, next)`. */
  ghost predicate Below<E>(m: map<Uuid, E>, next: Uuid)
  {
    forall u :: u in m ==> 4 <= u < next
  }

  /** One texture type of a new material: the entry of its texture at its
      full path, reused when that path is recorded, else a new entry; its
      default uuid when the material lacks the type. */
  method Slot(mat: AiMaterial, t: Texture.AiTextureType, dir: string, size: nat, textures: map<Uuid, TextureEntry>, next: Uuid)
    returns (u: Uuid, textures': map<Uuid, TextureEntry>, next': Uuid)
    requires t in TextureTypes && TexturesUnique(textures) && Below(textures, next) && 4 <= next
    ensures TexturesUnique(textures') && Below(textures', next') && next <= next'
    ensures Extends(textures, textures')
    ensures t in mat.textures ==> u in textures' && textures'[u].path == dir + "/" + mat.textures[t]
    ensures t !in mat.textures ==> u == DefaultTexture(t) && textures' == textures
  {
    textures', next' := textures, next;
    if t in mat.textures {
      var full := dir + "/" + mat.textures[t];
      var hit := FindKey(textures, (e: TextureEntry) => e.path == full);
      if hit.Some? {
        u := hit.value;
      } else {
        u := next;
        textures' := textures[u := TextureEntry(full, size, t == Texture.Normals)];
        next' := next + 1;
      }
    } else {
      u := DefaultTexture(t);
    }
  }

  /** The texture loop of a new material entry: each of the six types gets
      the entry of its texture, reused when its full path is recorded,
      else a new entry, or its default uuid when the material lacks it. */
  method AddSlots(s: AiScene, dir: string, size: nat, index: nat, textures: map<Uuid, TextureEntry>, next: Uuid)
    returns (slots: map<Texture.AiTextureType, Uuid>, textures': map<Uuid, TextureEntry>, next': Uuid)
    requires index < |s.materials| && TexturesUnique(textures) && Below(textures, next) && 4 <= next
    ensures TexturesUnique(textures') && Below(textures', next') && next <= next'
    ensures Extends(textures, textures')
    ensures SlotsResolved(s, dir, index, slots, textures')
  {
    var mat := s.materials[index];
    slots, textures', next' := map[], textures, next;
    for k := 0 to |TextureTypes|
      invariant TexturesUnique(textures') && Below(textures', next') && next <= next'
      invariant Extends(textures, textures')
      invariant slots.Keys == set j | 0 <= j < k :: TextureTypes[j]
      invariant forall t :: t in slots ==>
                  && (t in mat.textures ==> slots[t] in textures' && textures'[slots[t]].path == dir + "/" + mat.textures[t])
                  && (t !in mat.textures ==> t in TextureTypes && slots[t] == DefaultTexture(t))
    {
      var t := TextureTypes[k];
      var u;
      u, textures', next' := Slot(mat, t, dir, size, textures', next');
      slots := slots[t := u];
    }
  }

  /** A new material entry for assimp material `index`: a fresh uuid, the
      material's name and its six texture slots. */
  method AddMaterial(s: AiScene, dir: string, size: nat, index: nat,
                     materials: map<Uuid, MaterialEntry>, textures: map<Uuid, TextureEntry>, next: Uuid)
    returns (u: Uuid, materials': map<Uuid, MaterialEntry>, textures': map<Uuid, TextureEntry>, next': Uuid)
    requires index < |s.materials| && 4 <= next
    requires MaterialsUnique(materials) && MaterialsResolved(s, dir, materials, textures)
    requires forall v :: v in materials ==> materials[v].id != index
    requires TexturesUnique(textures) && Below(textures, next) && Below(materials, next)
    ensures MaterialsUnique(materials') && MaterialsResolved(s, dir, materials', textures')
    ensures TexturesUnique(textures') && Below(textures', next') && Below(materials', next') && next < next'
    ensures Extends(materials, materials') && Extends(textures, textures')
    ensures u in materials' && u !in materials && materials'[u].id == index && materials'[u].name == s.materials[index].name
    ensures materials'.Keys == materials.Keys + {u}
  {
    u := next;
    var slots;
    slots, textures', next' := AddSlots(s, dir, size, index, textures, next + 1);
    ResolvedExtend(s, dir, materials, textures, textures');
    materials' := materials[u := MaterialEntry(index, s.materials[index].name, slots)];
  }

  /** Every mesh entry names an assimp mesh. */
  ghost predicate MeshesInScene(s: AiScene, meshes: map<Uuid, MeshEntry>)
  {
    forall u :: u in meshes ==> meshes[u].id < |s.meshes|
  }

  /** The deduplicated part of the document the node walk extends. */
  datatype Store = Store(meshes: map<Uuid, MeshEntry>, materials: map<Uuid, MaterialEntry>, textures: map<Uuid, TextureEntry>)

  /** The store's invariant: one entry per mesh index, per material index
      and per texture path, every material's slots resolved, and every
      uuid in `[4, next)`. */
  ghost predicate StoreOk(s: AiScene, dir: string, st: Store, next: Uuid)
  {
    && 4 <= next
    && MeshesUnique(st.meshes) && MeshesInScene(s, st.meshes) && Below(st.meshes, next)
    && MaterialsUnique(st.materials) && MaterialsResolved(s, dir, st.materials, st.textures) && Below(st.materials, next)
    && TexturesUnique(st.textures) && Below(st.textures, next)
  }

  ghost predicate Grows(a: Store, b: Store)
  {
    Extends(a.meshes, b.meshes) && Extends(a.materials, b.materials) && Extends(a.textures, b.textures)
  }

  /** One mesh of a node: the mesh entry and the material entry for it,
      each reused when its assimp index is recorded, else added. */
  method AddMeshRef(s: AiScene, dir: string, size: nat, meshId: nat, st: Store, next: Uuid)
    returns (ref: MeshRef, st': Store, next': Uuid)
    requires SceneOk(s) && meshId < |s.meshes| && StoreOk(s, dir, st, next)
    ensures StoreOk(s, dir, st', next') && next <= next' && Grows(st, st')
    ensures ref.mesh in st'.meshes && st'.meshes[ref.mesh].id == meshId
    ensures ref.material in st'.materials && st'.materials[ref.material].id == s.meshes[meshId].materialIndex
  {
    var meshes, materials, textures := st.meshes, st.materials, st.textures;
    next' := next;
    var meshUuid;
    var found := FindKey(meshes, (e: MeshEntry) => e.id == meshId);
    if found.Some? {
      meshUuid := found.value;
    } else {
      meshUuid := next';
      meshes := meshes[meshUuid := MeshEntry(meshId, s.meshes[meshId].name)];
      next' := next' + 1;
    }
    var index := s.meshes[meshId].materialIndex;
    var materialUuid;
    found := FindKey(materials, (e: MaterialEntry) => e.id == index);
    if found.Some? {
      materialUuid := found.value;
    } else {
      materialUuid, materials, textures, next' := AddMaterial(s, dir, size, index, materials, textures, next');
    }
    ref := MeshRef(meshUuid, materialUuid);
    st' := Store(meshes, materials, textures);
  }

  /** A mesh reference that resolves: its mesh entry and material entry
      exist, and the material is the one assimp gives that mesh. */
  ghost predicate RefOk(s: AiScene, r: MeshRef, st: Store)
  {
    && r.mesh in st.meshes && st.meshes[r.mesh].id < |s.meshes|
    && r.material in st.materials && st.materials[r.material].id == s.meshes[st.meshes[r.mesh].id].materialIndex
  }

  lemma RefGrows(s: AiScene, refs: seq<MeshRef>, st: Store, st': Store)
    requires Grows(st, st') && forall k :: 0 <= k < |refs| ==> RefOk(s, refs[k], st)
    ensures forall k :: 0 <= k < |refs| ==> RefOk(s, refs[k], st') && refs[k].mesh in st.meshes && st'.meshes[refs[k].mesh] == st.meshes[refs[k].mesh]
  {
  }

  /** The mesh loop of one node: a resolving reference per listed mesh, in
      order, each to the entry for that mesh. */
  method AddNodeMeshes(s: AiScene, dir: string, size: nat, ids: seq<nat>, st: Store, next: Uuid)
    returns (refs: seq<MeshRef>, st': Store, next': Uuid)
    requires SceneOk(s) && (forall i :: 0 <= i < |ids| ==> ids[i] < |s.meshes|) && StoreOk(s, dir, st, next)
    ensures StoreOk(s, dir, st', next') && next <= next' && Grows(st, st')
    ensures MeshesMatch(s, st', refs, ids)
  {
    refs, st', next' := [], st, next;
    for i := 0 to |ids|
      invariant StoreOk(s, dir, st', next') && next <= next' && Grows(st, st')
      invariant MeshesMatch(s, st', refs, ids[..i])
    {
      var ref, st'', next'' := AddMeshRef(s, dir, size, ids[i], st', next');
      MatchSnoc(s, st', st'', refs, ids[..i], ref, ids[i]);
      assert ids[..i] + [ids[i]] == ids[..i + 1];
      refs, st', next' := refs + [ref], st'', next'';
    }
    assert ids[..|ids|] == ids;
  }

  /** Growing the store keeps a node's references matching, and one more
      resolving reference matches one more mesh. */
  lemma MatchSnoc(s: AiScene, st: Store, st': Store, refs: seq<MeshRef>, ids: seq<nat>, ref: MeshRef, id: nat)
    requires MeshesMatch(s, st, refs, ids) && Grows(st, st')
    requires RefOk(s, ref, st') && st'.meshes[ref.mesh].id == id
    ensures MeshesMatch(s, st', refs + [ref], ids + [id])
  {
    RefGrows(s, refs, st, st');
  }

  /** The nodes below and including `n`. */
  function Size(n: AiNode): nat
    decreases n, |n.children| + 1
  {
    1 + SizeFrom(n, 0)
  }

  function SizeFrom(n: AiNode, i: nat): nat
    requires i <= |n.children|
    decreases n, |n.children| - i
  {
    if i == |n.children| then 0 else Size(n.children[i]) + SizeFrom(n, i + 1)
  }

  /** The nodes still to be visited from a stack. */
  function Pending(stack: seq<(AiNode, Uuid)>): nat
  {
    if stack == [] then 0 else Pending(stack[..|stack| - 1]) + Size(stack[|stack| - 1].0)
  }

  /** The object entry of a node: the identity matrix gives the default
      transform. */
  function TransformOf(n: AiNode): (t: Transform)
    ensures n.transform.None? ==> t == DefaultTransform()
    ensures n.transform.Some? ==> t == n.transform.value
  {
    match n.transform
    case None => DefaultTransform()
    case Some(t) => t
  }

  /** A node's mesh references: one per listed mesh, each resolving to
      the entry for that mesh. */
  ghost predicate MeshesMatch(s: AiScene, st: Store, refs: seq<MeshRef>, ids: seq<nat>)
  {
    && |refs| == |ids|
    && forall k :: 0 <= k < |refs| ==> RefOk(s, refs[k], st) && st.meshes[refs[k].mesh].id == ids[k]
  }

  /** Every object entry describes its node: name, transform and meshes. */
  ghost predicate Describes(s: AiScene, st: Store, objects: map<Uuid, ObjectEntry>, nodeOf: map<Uuid, AiNode>)
  {
    && objects.Keys == nodeOf.Keys
    && forall o :: o in objects ==>
         && objects[o].name == nodeOf[o].name && objects[o].transform == TransformOf(nodeOf[o])
         && MeshesMatch(s, st, objects[o].meshes, nodeOf[o].meshes)
  }

  lemma DescribesGrow(s: AiScene, st: Store, st': Store, objects: map<Uuid, ObjectEntry>, nodeOf: map<Uuid, AiNode>)
    requires Describes(s, st, objects, nodeOf) && Grows(st, st')
    ensures Describes(s, st', objects, nodeOf)
  {
    forall o | o in objects
      ensures MeshesMatch(s, st', objects[o].meshes, nodeOf[o].meshes)
    {
      RefGrows(s, objects[o].meshes, st, st');
    }
  }

  /** The parent links of the object entries: each object's node is a
      child of its parent's node, and exactly one object, `root`, has the
      nil parent. */
  ghost predicate Linked(objects: map<Uuid, ObjectEntry>, nodeOf: map<Uuid, AiNode>, root: Uuid)
    requires objects.Keys == nodeOf.Keys
  {
    && root in objects && objects[root].parent == Nil
    && forall o :: o in objects && o != root ==>
         && objects[o].parent in objects
         && nodeOf[o] in nodeOf[objects[o].parent].children
  }

  /** Every pending node is well formed, and is a child of the node of
      the object it will name as parent. */
  ghost predicate StackOk(s: AiScene, stack: seq<(AiNode, Uuid)>, objects: map<Uuid, ObjectEntry>, nodeOf: map<Uuid, AiNode>)
    requires objects.Keys == nodeOf.Keys
  {
    forall k :: 0 <= k < |stack| ==>
      && NodeOk(stack[k].0, |s.meshes|)
      && stack[k].1 in objects && stack[k].0 in nodeOf[stack[k].1].children
  }

  /** The push loop of a visited node: its children, in order, each with
      the node's object uuid. */
  method PushChildren(stack: seq<(AiNode, Uuid)>, node: AiNode, id: Uuid) returns (stack': seq<(AiNode, Uuid)>)
    ensures |stack'| == |stack| + |node.children| && stack'[..|stack|] == stack
    ensures forall i :: 0 <= i < |node.children| ==> stack'[|stack| + i] == (node.children[i], id)
    ensures Pending(stack') == Pending(stack) + SizeFrom(node, 0)
  {
    stack' := stack;
    for i := 0 to |node.children|
      invariant |stack'| == |stack| + i && stack'[..|stack|] == stack
      invariant forall j :: 0 <= j < i ==> stack'[|stack| + j] == (node.children[j], id)
      invariant Pending(stack') + SizeFrom(node, i) == Pending(stack) + SizeFrom(node, 0)
    {
      var pushed := stack' + [(node.children[i], id)];
      assert pushed[..|stack'|] == stack';
      stack' := pushed;
    }
  }

  /** After visiting `node` as object `id`, the remaining stack and the
      pushed children are all pending under known objects. */
  lemma PushedOk(s: AiScene, rest: seq<(AiNode, Uuid)>, stack': seq<(AiNode, Uuid)>, node: AiNode, id: Uuid,
                 objects: map<Uuid, ObjectEntry>, nodeOf: map<Uuid, AiNode>)
    requires objects.Keys == nodeOf.Keys && id in objects && nodeOf[id] == node && NodeOk(node, |s.meshes|)
    requires StackOk(s, rest, objects, nodeOf)
    requires |stack'| == |rest| + |node.children| && stack'[..|rest|] == rest
    requires forall i :: 0 <= i < |node.children| ==> stack'[|rest| + i] == (node.children[i], id)
    ensures StackOk(s, stack', objects, nodeOf)
  {
    forall k | 0 <= k < |stack'|
      ensures NodeOk(stack'[k].0, |s.meshes|) && stack'[k].1 in objects && stack'[k].0 in nodeOf[stack'[k].1].children
    {
      if k < |rest| {
        assert stack'[k] == rest[k];
      } else {
        ChildOk(node, |s.meshes|, 0, k - |rest|);
      }
    }
  }

  /** Popping keeps the rest pending and yields a well-formed node. */
  lemma Popped(s: AiScene, stack: seq<(AiNode, Uuid)>, objects: map<Uuid, ObjectEntry>, nodeOf: map<Uuid, AiNode>)
    requires objects.Keys == nodeOf.Keys && stack != [] && StackOk(s, stack, objects, nodeOf)
    ensures StackOk(s, stack[..|stack| - 1], objects, nodeOf)
    ensures NodeOk(stack[|stack| - 1].0, |s.meshes|)
    ensures stack[|stack| - 1].1 in objects && stack[|stack| - 1].0 in nodeOf[stack[|stack| - 1].1].children
  {
  }

  /** A uuid handed out below the new bound keeps a map's uuids in range. */
  lemma BelowAdd<E>(m: map<Uuid, E>, u: Uuid, e: E, next: Uuid, next': Uuid)
    requires Below(m, next) && 4 <= u < next' && next <= next'
    ensures Below(m[u := e], next')
  {
  }

  /** Recording a popped node's object keeps the walk's invariants: the
      entry describes the node, and its parent is the object that pushed
      it (or nil for the first). */
  lemma AddObject(s: AiScene, st: Store, objects: map<Uuid, ObjectEntry>, nodeOf: map<Uuid, AiNode>, root: Uuid,
                  node: AiNode, parent: Uuid, id: Uuid, refs: seq<MeshRef>, rest: seq<(AiNode, Uuid)>)
    requires Describes(s, st, objects, nodeOf) && MeshesMatch(s, st, refs, node.meshes) && id !in objects
    requires objects == map[] ==> parent == Nil
    requires objects != map[] ==> Linked(objects, nodeOf, root) && parent in objects && node in nodeOf[parent].children
    requires StackOk(s, rest, objects, nodeOf)
    ensures var objects', nodeOf' := objects[id := ObjectEntry(parent, node.name, TransformOf(node), refs, [], [])], nodeOf[id := node];
            && Describes(s, st, objects', nodeOf')
            && (objects == map[] ==> Linked(objects', nodeOf', id))
            && (objects != map[] ==> Linked(objects', nodeOf', root))
            && StackOk(s, rest, objects', nodeOf')
  {
  }

  /** The node walk's invariant, between two pops: the store's, the
      entries describing their nodes, and, once the root is recorded, the
      parent links and the pending stack. */
  ghost predicate WalkOk(s: AiScene, dir: string, st: Store, next: Uuid, objects: map<Uuid, ObjectEntry>,
                         nodeOf: map<Uuid, AiNode>, root: Uuid, stack: seq<(AiNode, Uuid)>)
  {
    && StoreOk(s, dir, st, next) && Below(objects, next)
    && Describes(s, st, objects, nodeOf)
    && (objects == map[] ==> stack == [(s.root, Nil)] && NodeOk(s.root, |s.meshes|))
    && (objects != map[] ==> Linked(objects, nodeOf, root) && nodeOf[root] == s.root && StackOk(s, stack, objects, nodeOf))
  }

  /** What a pop may rely on: a well-formed node, and a store whose uuids
      lie below the next one but one. */
  lemma WalkPop(s: AiScene, dir: string, st: Store, next: Uuid, objects: map<Uuid, ObjectEntry>,
                nodeOf: map<Uuid, AiNode>, root: Uuid, stack: seq<(AiNode, Uuid)>)
    requires WalkOk(s, dir, st, next, objects, nodeOf, root, stack) && stack != []
    ensures NodeOk(stack[|stack| - 1].0, |s.meshes|) && StoreOk(s, dir, st, next + 1)
  {
    if objects != map[] {
      Popped(s, stack, objects, nodeOf);
    }
  }

  lemma LastSplit<T>(q: seq<T>)
    requires q != []
    ensures q == q[..|q| - 1] + [q[|q| - 1]]
  {
  }

  /** One visit keeps the walk's invariant: the popped node recorded as
      object `id` with its references, its children pushed. */
  lemma WalkStep(s: AiScene, dir: string, st: Store, id: Uuid, objects: map<Uuid, ObjectEntry>,
                 nodeOf: map<Uuid, AiNode>, root: Uuid, rest: seq<(AiNode, Uuid)>, node: AiNode, parent: Uuid,
                 refs: seq<MeshRef>, st': Store, next': Uuid, stack': seq<(AiNode, Uuid)>)
    requires WalkOk(s, dir, st, id, objects, nodeOf, root, rest + [(node, parent)])
    requires StoreOk(s, dir, st', next') && Grows(st, st') && id < next'
    requires MeshesMatch(s, st', refs, node.meshes)
    requires |stack'| == |rest| + |node.children| && stack'[..|rest|] == rest
             && forall i :: 0 <= i < |node.children| ==> stack'[|rest| + i] == (node.children[i], id)
    ensures WalkOk(s, dir, st', next', objects[id := ObjectEntry(parent, node.name, TransformOf(node), refs, [], [])],
                   nodeOf[id := node], if objects == map[] then id else root, stack')
  {
    var stack := rest + [(node, parent)];
    assert stack[..|stack| - 1] == rest;
    WalkPop(s, dir, st, id, objects, nodeOf, root, stack);
    if objects != map[] {
      Popped(s, stack, objects, nodeOf);
    }
    DescribesGrow(s, st, st', objects, nodeOf);
    var entry := ObjectEntry(parent, node.name, TransformOf(node), refs, [], []);
    BelowAdd(objects, id, entry, id, next');
    AddObject(s, st', objects, nodeOf, root, node, parent, id, refs, rest);
    PushedOk(s, rest, stack', node, id, objects[id := entry], nodeOf[id := node]);
  }

  /** `Import`'s node walk: a stack seeded with the root node and the nil
      parent; each popped node becomes an object entry naming its parent
      and its meshes, and pushes its children with its own uuid. */
  method ImportNodes(s: AiScene, dir: string, size: nat, next: Uuid)
    returns (objects: map<Uuid, ObjectEntry>, st: Store, next': Uuid, ghost nodeOf: map<Uuid, AiNode>, ghost root: Uuid)
    requires SceneOk(s) && 4 <= next
    ensures StoreOk(s, dir, st, next') && Below(objects, next') && next < next'
    ensures Describes(s, st, objects, nodeOf)
    ensures Linked(objects, nodeOf, root) && nodeOf[root] == s.root
    ensures forall o :: o in objects ==> objects[o].lights == [] && objects[o].cameras == []
  {
    objects, st, next' := map[], Store(map[], map[], map[]), next;
    nodeOf, root := map[], Nil;
    var stack := [(s.root, Nil)];
    while stack != []
      invariant WalkOk(s, dir, st, next', objects, nodeOf, root, stack) && next <= next'
      invariant objects != map[] ==> next < next'
      invariant forall o :: o in objects ==> objects[o].lights == [] && objects[o].cameras == []
      decreases Pending(stack)
    {
      WalkPop(s, dir, st, next', objects, nodeOf, root, stack);
      var (node, parent) := stack[|stack| - 1];
      var rest := stack[..|stack| - 1];
      LastSplit(stack);
      var id := next';
      var refs, st', next'' := AddNodeMeshes(s, dir, size, node.meshes, st, id + 1);
      var stack' := PushChildren(rest, node, id);
      WalkStep(s, dir, st, id, objects, nodeOf, root, rest, node, parent, refs, st', next'', stack');
      ghost var root' := if objects == map[] then id else root;
      var objects' := objects[id := ObjectEntry(parent, node.name, TransformOf(node), refs, [], [])];
      objects, nodeOf, root := objects', nodeOf[id := node], root';
      st, next', stack := st', next'', stack';
    }
  }

  /** `magic_enum`'s name of an assimp light source type. */
  function KindName(k: LightKind): string
  {
    match k
    case Undefined => "aiLightSource_UNDEFINED"
    case Directional => "aiLightSource_DIRECTIONAL"
    case Point => "aiLightSource_POINT"
    case Spot => "aiLightSource_SPOT"
    case Ambient => "aiLightSource_AMBIENT"
    case Area => "aiLightSource_AREA"
  }

  /** The recorded type name tells the light type back: no two types
      share a name. */
  lemma KindNameInjective(a: LightKind, b: LightKind)
    ensures KindName(a) == KindName(b) <==> a == b
  {
    if a != b {
      // the names first differ at the fifteenth character or in length
      assert KindName(a)[14] != KindName(b)[14] || |KindName(a)| != |KindName(b)|;
    }
  }

  /** A light's entry: its name and type name; a directional light also
      carries its direction and intensity 1. */
  function LightOf(l: AiLight): (e: LightEntry)
    ensures e.name == l.name && e.kind == KindName(l.kind)
    ensures e.direction.Some? <==> l.kind == Directional
    ensures e.intensity.Some? <==> l.kind == Directional
    ensures l.kind == Directional ==> e.direction.value == l.direction && e.intensity.value == 1.0
  {
    if l.kind == Directional then LightEntry(l.name, KindName(l.kind), Some(l.direction), Some(1.0))
    else LightEntry(l.name, KindName(l.kind), None, None)
  }

  /** A camera's entry: orthographic exactly when its orthographic width
      is nonzero, the box then symmetric about the view axis. */
  function ProjectionOf(c: AiCamera): (p: Projection)
    ensures p.Orthographic? <==> c.orthographicWidth != 0.0
    ensures p.near == c.near && p.far == c.far
    ensures p.Orthographic? ==> p.left == -p.right && p.right == c.orthographicWidth && p.bottom == -p.top && p.top == c.halfHeight
    ensures p.Perspective? ==> p.fov == c.fov
  {
    if c.orthographicWidth != 0.0 then
      Orthographic(-c.orthographicWidth, c.orthographicWidth, -c.halfHeight, c.halfHeight, c.near, c.far)
    else
      Perspective(c.fov, c.near, c.far)
  }

  /** `a` and `b` record the same objects with the same parents, names,
      transforms and meshes; only attached lights and cameras may differ. */
  ghost predicate SameSkeleton(a: map<Uuid, ObjectEntry>, b: map<Uuid, ObjectEntry>)
  {
    && a.Keys == b.Keys
    && forall o :: o in a ==>
         && b[o].parent == a[o].parent && b[o].name == a[o].name
         && b[o].transform == a[o].transform && b[o].meshes == a[o].meshes
  }

  /** Attaching lights and cameras keeps what the node walk established. */
  lemma SkeletonKeeps(s: AiScene, st: Store, a: map<Uuid, ObjectEntry>, b: map<Uuid, ObjectEntry>, nodeOf: map<Uuid, AiNode>, root: Uuid)
    requires SameSkeleton(a, b) && Describes(s, st, a, nodeOf) && Linked(a, nodeOf, root)
    ensures Describes(s, st, b, nodeOf) && Linked(b, nodeOf, root)
  {
    forall o | o in b
      ensures b[o].name == nodeOf[o].name && b[o].transform == TransformOf(nodeOf[o])
      ensures MeshesMatch(s, st, b[o].meshes, nodeOf[o].meshes)
    {
      assert o in a;
    }
  }

  /** The attach scan: the uuid `u` is appended to the lights (or the
      cameras) of one object named `name`, and to none when no object has
      that name. */
  method Attach(objects: map<Uuid, ObjectEntry>, name: string, u: Uuid, light: bool)
    returns (objects': map<Uuid, ObjectEntry>, at: Option<Uuid>)
    ensures SameSkeleton(objects, objects')
    ensures at.None? <==> forall o :: o in objects ==> objects[o].name != name
    ensures at.None? ==> objects' == objects
    ensures at.Some? ==> at.value in objects && objects[at.value].name == name
    ensures at.Some? && light ==> objects' == objects[at.value := objects[at.value].(lights := objects[at.value].lights + [u])]
    ensures at.Some? && !light ==> objects' == objects[at.value := objects[at.value].(cameras := objects[at.value].cameras + [u])]
  {
    at := FindKey(objects, (e: ObjectEntry) => e.name == name);
    objects' := objects;
    if at.Some? {
      var o := at.value;
      if light {
        objects' := objects[o := objects[o].(lights := objects[o].lights + [u])];
      } else {
        objects' := objects[o := objects[o].(cameras := objects[o].cameras + [u])];
      }
    }
  }

  /** The light entries of a scene whose uuids start at `first`, one per
      light, in order. */
  ghost predicate LightsRecorded(s: AiScene, lights: map<Uuid, LightEntry>, first: Uuid, count: nat)
  {
    && count <= |s.lights|
    && (forall u :: u in lights <==> first <= u < first + count)
    && forall u :: u in lights ==> lights[u] == LightOf(s.lights[u - first])
  }

  /** Every attached light is recorded and shares its object's name. */
  ghost predicate LightsAttached(s: AiScene, objects: map<Uuid, ObjectEntry>, first: Uuid, count: nat)
    requires count <= |s.lights|
  {
    forall o, j :: o in objects && 0 <= j < |objects[o].lights| ==>
      first <= objects[o].lights[j] < first + count && s.lights[objects[o].lights[j] - first].name == objects[o].name
  }

  /** Some object is named `name`. */
  ghost predicate Named(objects: map<Uuid, ObjectEntry>, name: string)
  {
    exists o :: o in objects && objects[o].name == name
  }

  /** Light `u` is attached to some object. */
  ghost predicate LightAttached(objects: map<Uuid, ObjectEntry>, u: Uuid)
  {
    exists o :: o in objects && u in objects[o].lights
  }

  /** What the light loop has established after `count` lights. */
  ghost predicate LightsDone(s: AiScene, objects: map<Uuid, ObjectEntry>, objects': map<Uuid, ObjectEntry>,
                             lights: map<Uuid, LightEntry>, first: Uuid, count: nat)
  {
    && LightsRecorded(s, lights, first, count)
    && SameSkeleton(objects, objects') && LightsAttached(s, objects', first, count)
    && (forall o :: o in objects ==> objects'[o].cameras == objects[o].cameras)
    && forall k :: 0 <= k < count && Named(objects, s.lights[k].name) ==> LightAttached(objects', first + k)
  }

  /** The attach step's outcome for light `u` named `name`. */
  ghost predicate AttachedOnce(before: map<Uuid, ObjectEntry>, after: map<Uuid, ObjectEntry>, name: string, u: Uuid, at: Option<Uuid>)
  {
    && (at.None? <==> forall o :: o in before ==> before[o].name != name)
    && (at.None? ==> after == before)
    && (at.Some? ==> at.value in before && before[at.value].name == name
                     && after == before[at.value := before[at.value].(lights := before[at.value].lights + [u])])
  }

  /** Lights attached before stay attached, and the new one is attached
      when an object carries its name. */
  lemma LightReach(s: AiScene, objects: map<Uuid, ObjectEntry>, before: map<Uuid, ObjectEntry>, after: map<Uuid, ObjectEntry>,
                   first: Uuid, i: nat, at: Option<Uuid>)
    requires i < |s.lights| && SameSkeleton(objects, before)
    requires forall k :: 0 <= k < i && Named(objects, s.lights[k].name) ==> LightAttached(before, first + k)
    requires AttachedOnce(before, after, s.lights[i].name, first + i, at)
    ensures forall k :: 0 <= k < i + 1 && Named(objects, s.lights[k].name) ==> LightAttached(after, first + k)
  {
    forall k | 0 <= k < i + 1 && Named(objects, s.lights[k].name)
      ensures LightAttached(after, first + k)
    {
      if k < i {
        var o :| o in before && first + k in before[o].lights;
        assert after[o].lights[..|before[o].lights|] == before[o].lights;
        assert first + k in after[o].lights;
      } else {
        var o :| o in objects && objects[o].name == s.lights[k].name;
        assert before[o].name == s.lights[i].name;
        assert first + i in after[at.value].lights;
      }
    }
  }

  /** Every attached light, the new one included, is recorded and shares
      its object's name. */
  lemma LightNames(s: AiScene, before: map<Uuid, ObjectEntry>, after: map<Uuid, ObjectEntry>, first: Uuid, i: nat, at: Option<Uuid>)
    requires i < |s.lights| && LightsAttached(s, before, first, i)
    requires AttachedOnce(before, after, s.lights[i].name, first + i, at)
    ensures LightsAttached(s, after, first, i + 1)
  {
    forall o, j | o in after && 0 <= j < |after[o].lights|
      ensures first <= after[o].lights[j] < first + i + 1 && s.lights[after[o].lights[j] - first].name == after[o].name
    {
      if at.Some? && o == at.value && j == |before[o].lights| {
      } else {
        assert after[o].lights[j] == before[o].lights[j];
      }
    }
  }

  /** One more light entry under the next uuid. */
  lemma RecordStep(s: AiScene, lights: map<Uuid, LightEntry>, first: Uuid, i: nat)
    requires i < |s.lights| && LightsRecorded(s, lights, first, i)
    ensures LightsRecorded(s, lights[first + i := LightOf(s.lights[i])], first, i + 1)
  {
  }

  /** Attaching keeps the skeleton and the cameras. */
  lemma AttachKeeps(objects: map<Uuid, ObjectEntry>, before: map<Uuid, ObjectEntry>, after: map<Uuid, ObjectEntry>,
                    name: string, u: Uuid, at: Option<Uuid>)
    requires SameSkeleton(objects, before) && forall o :: o in objects ==> before[o].cameras == objects[o].cameras
    requires AttachedOnce(before, after, name, u, at)
    ensures SameSkeleton(objects, after) && forall o :: o in objects ==> after[o].cameras == objects[o].cameras
  {
  }

  /** One more light recorded and attached keeps the loop's invariant. */
  lemma LightStep(s: AiScene, objects: map<Uuid, ObjectEntry>, before: map<Uuid, ObjectEntry>, after: map<Uuid, ObjectEntry>,
                  lights: map<Uuid, LightEntry>, first: Uuid, i: nat, at: Option<Uuid>)
    requires i < |s.lights| && LightsDone(s, objects, before, lights, first, i)
    requires AttachedOnce(before, after, s.lights[i].name, first + i, at)
    ensures LightsDone(s, objects, after, lights[first + i := LightOf(s.lights[i])], first, i + 1)
  {
    RecordStep(s, lights, first, i);
    AttachKeeps(objects, before, after, s.lights[i].name, first + i, at);
    LightReach(s, objects, before, after, first, i, at);
    LightNames(s, before, after, first, i, at);
  }

  /** The light loop of `Import`: one entry per light under a fresh uuid,
      attached to one object carrying the light's name, if any. */
  method ImportLights(s: AiScene, objects: map<Uuid, ObjectEntry>, next: Uuid)
    returns (lights: map<Uuid, LightEntry>, objects': map<Uuid, ObjectEntry>, next': Uuid)
    requires forall o :: o in objects ==> objects[o].lights == []
    ensures next' == next + |s.lights|
    ensures LightsDone(s, objects, objects', lights, next, |s.lights|)
  {
    lights, objects', next' := map[], objects, next;
    for i := 0 to |s.lights|
      invariant next' == next + i
      invariant LightsDone(s, objects, objects', lights, next, i)
    {
      var at, after;
      after, at := Attach(objects', s.lights[i].name, next', true);
      LightStep(s, objects, objects', after, lights, next, i, at);
      lights, objects' := lights[next' := LightOf(s.lights[i])], after;
      next' := next' + 1;
    }
  }

  /** The camera entries of a scene whose uuids start at `first`, one per
      camera, in order. */
  ghost predicate CamerasRecorded(s: AiScene, cameras: map<Uuid, Projection>, first: Uuid, count: nat)
  {
    && count <= |s.cameras|
    && (forall u :: u in cameras <==> first <= u < first + count)
    && forall u :: u in cameras ==> cameras[u] == ProjectionOf(s.cameras[u - first])
  }

  /** Every attached camera is recorded and shares its object's name. */
  ghost predicate CamerasAttached(s: AiScene, objects: map<Uuid, ObjectEntry>, first: Uuid, count: nat)
    requires count <= |s.cameras|
  {
    forall o, j :: o in objects && 0 <= j < |objects[o].cameras| ==>
      first <= objects[o].cameras[j] < first + count && s.cameras[objects[o].cameras[j] - first].name == objects[o].name
  }

  /** Camera `u` is attached to some object. */
  ghost predicate CameraAttached(objects: map<Uuid, ObjectEntry>, u: Uuid)
  {
    exists o :: o in objects && u in objects[o].cameras
  }

  /** What the camera loop has established after `count` cameras. */
  ghost predicate CamerasDone(s: AiScene, objects: map<Uuid, ObjectEntry>, objects': map<Uuid, ObjectEntry>,
                              cameras: map<Uuid, Projection>, first: Uuid, count: nat)
  {
    && CamerasRecorded(s, cameras, first, count)
    && SameSkeleton(objects, objects') && CamerasAttached(s, objects', first, count)
    && (forall o :: o in objects ==> objects'[o].lights == objects[o].lights)
    && forall k :: 0 <= k < count && Named(objects, s.cameras[k].name) ==> CameraAttached(objects', first + k)
  }

  /** The attach step's outcome for camera `u` named `name`. */
  ghost predicate CameraOnce(before: map<Uuid, ObjectEntry>, after: map<Uuid, ObjectEntry>, name: string, u: Uuid, at: Option<Uuid>)
  {
    && (at.None? <==> forall o :: o in before ==> before[o].name != name)
    && (at.None? ==> after == before)
    && (at.Some? ==> at.value in before && before[at.value].name == name
                     && after == before[at.value := before[at.value].(cameras := before[at.value].cameras + [u])])
  }

  lemma CameraRecordStep(s: AiScene, cameras: map<Uuid, Projection>, first: Uuid, i: nat)
    requires i < |s.cameras| && CamerasRecorded(s, cameras, first, i)
    ensures CamerasRecorded(s, cameras[first + i := ProjectionOf(s.cameras[i])], first, i + 1)
  {
  }

  lemma CameraKeeps(objects: map<Uuid, ObjectEntry>, before: map<Uuid, ObjectEntry>, after: map<Uuid, ObjectEntry>,
                    name: string, u: Uuid, at: Option<Uuid>)
    requires SameSkeleton(objects, before) && forall o :: o in objects ==> before[o].lights == objects[o].lights
    requires CameraOnce(before, after, name, u, at)
    ensures SameSkeleton(objects, after) && forall o :: o in objects ==> after[o].lights == objects[o].lights
  {
  }

  /** Cameras attached before stay attached, and the new one is attached
      when an object carries its name. */
  lemma CameraReach(s: AiScene, objects: map<Uuid, ObjectEntry>, before: map<Uuid, ObjectEntry>, after: map<Uuid, ObjectEntry>,
                    first: Uuid, i: nat, at: Option<Uuid>)
    requires i < |s.cameras| && SameSkeleton(objects, before)
    requires forall k :: 0 <= k < i && Named(objects, s.cameras[k].name) ==> CameraAttached(before, first + k)
    requires CameraOnce(before, after, s.cameras[i].name, first + i, at)
    ensures forall k :: 0 <= k < i + 1 && Named(objects, s.cameras[k].name) ==> CameraAttached(after, first + k)
  {
    forall k | 0 <= k < i + 1 && Named(objects, s.cameras[k].name)
      ensures CameraAttached(after, first + k)
    {
      if k < i {
        var o :| o in before && first + k in before[o].cameras;
        assert after[o].cameras[..|before[o].cameras|] == before[o].cameras;
        assert first + k in after[o].cameras;
      } else {
        var o :| o in objects && objects[o].name == s.cameras[k].name;
        assert before[o].name == s.cameras[i].name;
        assert first + i in after[at.value].cameras;
      }
    }
  }

  lemma CameraNames(s: AiScene, before: map<Uuid, ObjectEntry>, after: map<Uuid, ObjectEntry>, first: Uuid, i: nat, at: Option<Uuid>)
    requires i < |s.cameras| && CamerasAttached(s, before, first, i)
    requires CameraOnce(before, after, s.cameras[i].name, first + i, at)
    ensures CamerasAttached(s, after, first, i + 1)
  {
    forall o, j | o in after && 0 <= j < |after[o].cameras|
      ensures first <= after[o].cameras[j] < first + i + 1 && s.cameras[after[o].cameras[j] - first].name == after[o].name
    {
      if at.Some? && o == at.value && j == |before[o].cameras| {
      } else {
        assert after[o].cameras[j] == before[o].cameras[j];
      }
    }
  }

  lemma CameraStep(s: AiScene, objects: map<Uuid, ObjectEntry>, before: map<Uuid, ObjectEntry>, after: map<Uuid, ObjectEntry>,
                   cameras: map<Uuid, Projection>, first: Uuid, i: nat, at: Option<Uuid>)
    requires i < |s.cameras| && CamerasDone(s, objects, before, cameras, first, i)
    requires CameraOnce(before, after, s.cameras[i].name, first + i, at)
    ensures CamerasDone(s, objects, after, cameras[first + i := ProjectionOf(s.cameras[i])], first, i + 1)
  {
    CameraRecordStep(s, cameras, first, i);
    CameraKeeps(objects, before, after, s.cameras[i].name, first + i, at);
    CameraReach(s, objects, before, after, first, i, at);
    CameraNames(s, before, after, first, i, at);
  }

  /** The camera loop of `Import`: one entry per camera under a fresh
      uuid, attached to one object carrying the camera's name, if any. */
  method ImportCameras(s: AiScene, objects: map<Uuid, ObjectEntry>, next: Uuid)
    returns (cameras: map<Uuid, Projection>, objects': map<Uuid, ObjectEntry>, next': Uuid)
    requires forall o :: o in objects ==> objects[o].cameras == []
    ensures next' == next + |s.cameras|
    ensures CamerasDone(s, objects, objects', cameras, next, |s.cameras|)
  {
    cameras, objects', next' := map[], objects, next;
    for i := 0 to |s.cameras|
      invariant next' == next + i
      invariant CamerasDone(s, objects, objects', cameras, next, i)
    {
      var at, after;
      after, at := Attach(objects', s.cameras[i].name, next', false);
      CameraStep(s, objects, objects', after, cameras, next, i, at);
      cameras, objects' := cameras[next' := ProjectionOf(s.cameras[i])], after;
      next' := next' + 1;
    }
  }

  /** The document `Import` writes for scene `s`: the deduplicated store
      with uuids in `[4, lightsFirst)`, one object per node linked to its
      parent, then the lights from `lightsFirst` and the cameras after
      them, each attached to an object of its name when there is one. */
  ghost predicate Imported(s: AiScene, dir: string, m: Meta, nodeOf: map<Uuid, AiNode>, root: Uuid, lightsFirst: Uuid, camerasFirst: Uuid)
  {
    var st := Store(m.meshes, m.materials, m.textures);
    && camerasFirst == lightsFirst + |s.lights|
    && StoreOk(s, dir, st, lightsFirst) && Below(m.objects, lightsFirst)
    && Describes(s, st, m.objects, nodeOf) && Linked(m.objects, nodeOf, root) && nodeOf[root] == s.root
    && LightsRecorded(s, m.lights, lightsFirst, |s.lights|) && LightsAttached(s, m.objects, lightsFirst, |s.lights|)
    && (forall k :: 0 <= k < |s.lights| && Named(m.objects, s.lights[k].name) ==> LightAttached(m.objects, lightsFirst + k))
    && CamerasRecorded(s, m.cameras, camerasFirst, |s.cameras|) && CamerasAttached(s, m.objects, camerasFirst, |s.cameras|)
    && (forall k :: 0 <= k < |s.cameras| && Named(m.objects, s.cameras[k].name) ==> CameraAttached(m.objects, camerasFirst + k))
  }

  /** `Import` up to writing the document: the node walk, then the light
      loop, then the camera loop, each drawing uuids from `next` on. */
  method ImportScene(s: AiScene, dir: string, size: nat, next: Uuid)
    returns (m: Meta, next': Uuid, ghost nodeOf: map<Uuid, AiNode>, ghost root: Uuid, ghost lightsFirst: Uuid, ghost camerasFirst: Uuid)
    requires SceneOk(s) && 4 <= next
    ensures Imported(s, dir, m, nodeOf, root, lightsFirst, camerasFirst)
    ensures next < lightsFirst && next' == camerasFirst + |s.cameras|
  {
    var objects, st, n1;
    objects, st, n1, nodeOf, root := ImportNodes(s, dir, size, next);
    var lights, withLights, n2 := ImportLights(s, objects, n1);
    var cameras, withCameras, n3 := ImportCameras(s, withLights, n2);
    m := Meta(st.meshes, st.materials, st.textures, withCameras, lights, cameras);
    next', lightsFirst, camerasFirst := n3, n1, n2;
    Assemble(s, dir, st, objects, withLights, withCameras, lights, cameras, nodeOf, root, n1, n2);
  }

  /** A name is carried by the same objects whatever is attached. */
  lemma NamedSame(a: map<Uuid, ObjectEntry>, b: map<Uuid, ObjectEntry>, name: string)
    requires SameSkeleton(a, b)
    ensures Named(a, name) <==> Named(b, name)
  {
    if Named(a, name) {
      var o :| o in a && a[o].name == name;
      assert o in b && b[o].name == name;
    }
    if Named(b, name) {
      var o :| o in b && b[o].name == name;
      assert o in a && a[o].name == name;
    }
  }

  /** The camera loop leaves the light attachments as they were. */
  lemma LightsSurvive(s: AiScene, objects: map<Uuid, ObjectEntry>, withLights: map<Uuid, ObjectEntry>, withCameras: map<Uuid, ObjectEntry>, first: Uuid)
    requires SameSkeleton(objects, withLights) && SameSkeleton(withLights, withCameras)
    requires forall o :: o in withLights ==> withCameras[o].lights == withLights[o].lights
    requires LightsAttached(s, withLights, first, |s.lights|)
    requires forall k :: 0 <= k < |s.lights| && Named(objects, s.lights[k].name) ==> LightAttached(withLights, first + k)
    ensures LightsAttached(s, withCameras, first, |s.lights|)
    ensures forall k :: 0 <= k < |s.lights| && Named(withCameras, s.lights[k].name) ==> LightAttached(withCameras, first + k)
  {
    forall k | 0 <= k < |s.lights| && Named(withCameras, s.lights[k].name)
      ensures LightAttached(withCameras, first + k)
    {
      NamedSame(withLights, withCameras, s.lights[k].name);
      NamedSame(objects, withLights, s.lights[k].name);
      var o :| o in withLights && first + k in withLights[o].lights;
      assert first + k in withCameras[o].lights;
    }
  }

  /** The three loops together write the document `Imported` describes. */
  lemma Assemble(s: AiScene, dir: string, st: Store, objects: map<Uuid, ObjectEntry>, withLights: map<Uuid, ObjectEntry>,
                 withCameras: map<Uuid, ObjectEntry>, lights: map<Uuid, LightEntry>, cameras: map<Uuid, Projection>,
                 nodeOf: map<Uuid, AiNode>, root: Uuid, first: Uuid, camerasFirst: Uuid)
    requires StoreOk(s, dir, st, first) && Below(objects, first)
    requires Describes(s, st, objects, nodeOf) && Linked(objects, nodeOf, root) && nodeOf[root] == s.root
    requires LightsDone(s, objects, withLights, lights, first, |s.lights|)
    requires camerasFirst == first + |s.lights| && CamerasDone(s, withLights, withCameras, cameras, camerasFirst, |s.cameras|)
    ensures Imported(s, dir, Meta(st.meshes, st.materials, st.textures, withCameras, lights, cameras), nodeOf, root, first, camerasFirst)
  {
    SkeletonKeeps(s, st, objects, withLights, nodeOf, root);
    SkeletonKeeps(s, st, withLights, withCameras, nodeOf, root);
    LightsSurvive(s, objects, withLights, withCameras, first);
    forall k | 0 <= k < |s.cameras| && Named(withCameras, s.cameras[k].name)
      ensures CameraAttached(withCameras, camerasFirst + k)
    {
      NamedSame(withLights, withCameras, s.cameras[k].name);
    }
  }

  /** The six recorded texture types feed six different usages. */
  lemma TypeUsagesDistinct(a: Texture.AiTextureType, b: Texture.AiTextureType)
    requires a in TextureTypes && b in TextureTypes && a != b
    ensures Texture.FromAiTextureType(a) != Texture.FromAiTextureType(b)
  {
    Texture.SharedUsages(a, b);
  }

  /** The slot a texture type's texture is bound to. */
  function SlotOf(t: Texture.AiTextureType): AssetManager.Slot
  {
    AssetManager.Slot(Texture.FromAiTextureType(t))
  }

  /** The texture loop of `LoadMaterials`: each recorded type's usage
      bound to the stored texture of its uuid, or to nothing when the store
      lacks it. */
  method BindTextures(slots: map<Texture.AiTextureType, Uuid>, store: map<Uuid, AssetManager.TextureAsset>)
    returns (r: map<AssetManager.Slot, Option<AssetManager.TextureAsset>>)
    requires forall t :: t in slots ==> t in TextureTypes
    ensures r.Keys == set t | t in slots :: SlotOf(t)
    ensures forall t :: t in slots ==>
              r[SlotOf(t)] == (if slots[t] in store then Some(store[slots[t]]) else None)
  {
    r := map[];
    var left := slots.Keys;
    while left != {}
      invariant left <= slots.Keys
      invariant r.Keys == set t | t in slots && t !in left :: SlotOf(t)
      invariant forall t :: t in slots && t !in left ==>
                  r[SlotOf(t)] == (if slots[t] in store then Some(store[slots[t]]) else None)
      decreases |left|
    {
      var t :| t in left;
      var bound := if slots[t] in store then Some(store[slots[t]]) else None;
      var r' := r[SlotOf(t) := bound];
      forall t' | t' in slots && t' !in left - {t}
        ensures r'[SlotOf(t')] == (if slots[t'] in store then Some(store[slots[t']]) else None)
      {
        if t' != t {
          TypeUsagesDistinct(t', t);
        }
      }
      r, left := r', left - {t};
    }
  }

  /** A decoded image file: `stbi_load` forcing four channels. */
  datatype Image = Image(width: nat, height: nat, pixels: seq<bv8>)

  /** The texture asset of a recorded texture: named by the last part of
      its path. */
  function TextureAssetOf(u: Uuid, e: TextureEntry, image: Image): (t: AssetManager.TextureAsset)
    ensures t.id == u && t.name == Text.AfterLast(e.path, {'/'})
    ensures t.width == image.width && t.height == image.height && t.pixels == image.pixels
  {
    AssetManager.TextureAsset(u, Text.AfterLast(e.path, {'/'}), image.width, image.height, image.pixels)
  }

  /** Every recorded texture's file decodes. */
  ghost predicate AllLoad(textures: map<Uuid, TextureEntry>, load: string -> Option<Image>)
  {
    forall u :: u in textures ==> load(textures[u].path).Some?
  }

  /** What a metadata document needs before its assets can be loaded:
      its meshes are assimp meshes and its material slots name only the
      six recorded types. */
  ghost predicate Loadable(s: AiScene, m: Meta)
  {
    && MeshesInScene(s, m.meshes)
    && forall u, t :: u in m.materials && t in m.materials[u].textures ==> t in TextureTypes
  }

  /** An imported document is loadable. */
  lemma ImportedLoadable(s: AiScene, dir: string, m: Meta, nodeOf: map<Uuid, AiNode>, root: Uuid, lightsFirst: Uuid, camerasFirst: Uuid)
    requires Imported(s, dir, m, nodeOf, root, lightsFirst, camerasFirst)
    ensures Loadable(s, m)
  {
    forall u, t | u in m.materials && t in m.materials[u].textures
      ensures t in TextureTypes
    {
      assert SlotsResolved(s, dir, m.materials[u].id, m.materials[u].textures, m.textures);
    }
  }

  /** The entries of `all` whose keys are in `ks`. */
  function Restrict<V>(all: map<Uuid, V>, ks: set<Uuid>): map<Uuid, V>
  {
    map k | k in all && k in ks :: all[k]
  }

  lemma RestrictStep<V>(base: map<Uuid, V>, all: map<Uuid, V>, done: set<Uuid>, u: Uuid)
    requires u in all
    ensures base + Restrict(all, done + {u}) == (base + Restrict(all, done))[u := all[u]]
  {
  }

  lemma RestrictAll<V>(all: map<Uuid, V>)
    ensures Restrict(all, all.Keys) == all
  {
  }

  /** The mesh assets of the mesh entries: each under its entry's uuid,
      named as its assimp mesh. */
  function MeshAssets(s: AiScene, entries: map<Uuid, MeshEntry>): (r: map<Uuid, AssetManager.Mesh>)
    requires MeshesInScene(s, entries)
    ensures r.Keys == entries.Keys
    ensures forall u :: u in r ==> r[u].id == u && r[u].name == s.meshes[entries[u].id].name
  {
    map u | u in entries :: AssetManager.Mesh(u, s.meshes[entries[u].id].name)
  }

  /** The texture assets of the texture entries, each from its decoded
      file. */
  function TextureAssets(entries: map<Uuid, TextureEntry>, load: string -> Option<Image>): (r: map<Uuid, AssetManager.TextureAsset>)
    requires AllLoad(entries, load)
    ensures r.Keys == entries.Keys
    ensures forall u :: u in r ==> r[u] == TextureAssetOf(u, entries[u], load(entries[u].path).value)
  {
    map u | u in entries :: TextureAssetOf(u, entries[u], load(entries[u].path).value)
  }

  /** The decoding pass of `LoadTextures`: the path of a texture whose
      file does not decode, if any. */
  method Decodes(entries: map<Uuid, TextureEntry>, load: string -> Option<Image>) returns (failed: Option<string>)
    ensures failed.None? <==> AllLoad(entries, load)
    ensures failed.Some? ==> exists u :: u in entries && entries[u].path == failed.value && load(failed.value).None?
  {
    var left := entries.Keys;
    while left != {}
      invariant left <= entries.Keys
      invariant forall u :: u in entries && u !in left ==> load(entries[u].path).Some?
      decreases |left|
    {
      var u :| u in left;
      if load(entries[u].path).None? {
        return Some(entries[u].path);
      }
      left := left - {u};
    }
    failed := None;
  }

  /** `r` binds each slot's usage to the stored texture of its uuid, or
      to nothing when the store lacks it, and binds nothing else. */
  ghost predicate Binds(slots: map<Texture.AiTextureType, Uuid>, store: map<Uuid, AssetManager.TextureAsset>,
                        r: map<AssetManager.Slot, Option<AssetManager.TextureAsset>>)
  {
    && r.Keys == (set t | t in slots :: SlotOf(t))
    && forall t :: t in slots ==> r[SlotOf(t)] == (if slots[t] in store then Some(store[slots[t]]) else None)
  }

  /** The material assets of the material entries: each under its
      entry's uuid and name, its slots bound against `store`. */
  ghost predicate MaterialsBuilt(entries: map<Uuid, MaterialEntry>, store: map<Uuid, AssetManager.TextureAsset>,
                                 all: map<Uuid, AssetManager.Material>)
  {
    && all.Keys == entries.Keys
    && forall u :: u in all ==>
         all[u].id == u && all[u].name == entries[u].name && Binds(entries[u].textures, store, all[u].textures)
  }

  /** The material loop of `LoadMaterials`, before each material is added. */
  method MaterialAssets(entries: map<Uuid, MaterialEntry>, store: map<Uuid, AssetManager.TextureAsset>)
    returns (all: map<Uuid, AssetManager.Material>)
    requires forall u, t :: u in entries && t in entries[u].textures ==> t in TextureTypes
    ensures MaterialsBuilt(entries, store, all)
  {
    all := map[];
    var left := entries.Keys;
    while left != {}
      invariant left <= entries.Keys
      invariant MaterialsBuilt(entries - left, store, all)
      decreases |left|
    {
      var u :| u in left;
      var bound := BindTextures(entries[u].textures, store);
      all := all[u := AssetManager.Material(u, entries[u].name, bound)];
      left := left - {u};
    }
    assert entries - {} == entries;
  }

  /** `AddMesh` for every mesh of `all`, each under its own id. */
  method StoreMeshes(mgr: AssetManager.Manager, all: map<Uuid, AssetManager.Mesh>)
    requires forall u :: u in all ==> all[u].id == u
    modifies mgr`meshes
    ensures mgr.meshes == old(mgr.meshes) + all
  {
    ghost var base := mgr.meshes;
    var left := all.Keys;
    while left != {}
      invariant left <= all.Keys
      invariant mgr.meshes == base + Restrict(all, all.Keys - left)
      decreases |left|
    {
      var u :| u in left;
      RestrictStep(base, all, all.Keys - left, u);
      assert all.Keys - (left - {u}) == (all.Keys - left) + {u};
      mgr.AddMesh(all[u]);
      left := left - {u};
    }
    RestrictAll(all);
  }

  /** `AddTexture` for every texture of `all`, each under its own id. */
  method StoreTextures(mgr: AssetManager.Manager, all: map<Uuid, AssetManager.TextureAsset>)
    requires forall u :: u in all ==> all[u].id == u
    modifies mgr`textures
    ensures mgr.textures == old(mgr.textures) + all
  {
    ghost var base := mgr.textures;
    var left := all.Keys;
    while left != {}
      invariant left <= all.Keys
      invariant mgr.textures == base + Restrict(all, all.Keys - left)
      decreases |left|
    {
      var u :| u in left;
      RestrictStep(base, all, all.Keys - left, u);
      assert all.Keys - (left - {u}) == (all.Keys - left) + {u};
      mgr.AddTexture(all[u]);
      left := left - {u};
    }
    RestrictAll(all);
  }

  /** `AddMaterial` for every material of `all`, each under its own id. */
  method StoreMaterials(mgr: AssetManager.Manager, all: map<Uuid, AssetManager.Material>)
    requires forall u :: u in all ==> all[u].id == u
    modifies mgr`materials
    ensures mgr.materials == old(mgr.materials) + all
  {
    ghost var base := mgr.materials;
    var left := all.Keys;
    while left != {}
      invariant left <= all.Keys
      invariant mgr.materials == base + Restrict(all, all.Keys - left)
      decreases |left|
    {
      var u :| u in left;
      RestrictStep(base, all, all.Keys - left, u);
      assert all.Keys - (left - {u}) == (all.Keys - left) + {u};
      mgr.AddMaterial(all[u]);
      left := left - {u};
    }
    RestrictAll(all);
  }

  /** `Asset::Importer`: an assimp scene read from `path`, its metadata
      document, and whether its meshes, materials and textures have been
      loaded into the asset store. Uuids are drawn from `next` on. */
  class Importer {
    const dir: string
    const name: string
    const scene: AiScene
    const textureSize: nat
    var meta: Meta
    var next: Uuid
    var meshesLoaded: bool
    var materialsLoaded: bool
    var texturesLoaded: bool
    ghost var nodeOf: map<Uuid, AiNode>
    ghost var root: Uuid
    ghost var lightsFirst: Uuid
    ghost var camerasFirst: Uuid

    ghost predicate Valid()
      reads this`meta, this`next
    {
      SceneOk(scene) && 4 <= next && Loadable(scene, meta)
    }

    /** The document describes the scene: `Imported` of its fields. */
    ghost predicate Recorded()
      reads this`meta, this`nodeOf, this`root, this`lightsFirst, this`camerasFirst
    {
      Imported(scene, dir, meta, nodeOf, root, lightsFirst, camerasFirst)
    }

    /** The directory and file name of `path`, and the texture size of the
        scene's materials; nothing recorded or loaded yet. */
    constructor(path: string, scene: AiScene)
      requires SceneOk(scene)
      ensures Valid()
      ensures (dir, name) == Split(path) && this.scene == scene
      ensures forall i :: 0 <= i < |scene.materials| && scene.materials[i].diffuseSize.Some? ==>
                scene.materials[i].diffuseSize.value.0 <= textureSize && scene.materials[i].diffuseSize.value.1 <= textureSize
      ensures meta == Empty && !meshesLoaded && !materialsLoaded && !texturesLoaded
    {
      var size := TextureSize(scene.materials);
      dir := Text.BeforeLast(path, {'/'});
      name := Text.AfterLast(path, {'/'});
      this.scene := scene;
      textureSize := size;
      meta := Empty;
      next := 4;
      meshesLoaded, materialsLoaded, texturesLoaded := false, false, false;
    }

    /** `LoadMeshes`: once, one mesh asset per mesh entry, under the
        entry's uuid and with its assimp mesh's name. */
    method LoadMeshes(mgr: AssetManager.Manager)
      requires Valid()
      modifies this`meshesLoaded, mgr`meshes
      ensures Valid() && meshesLoaded
      ensures old(meshesLoaded) ==> mgr.meshes == old(mgr.meshes)
      ensures !old(meshesLoaded) ==> mgr.meshes == old(mgr.meshes) + MeshAssets(scene, meta.meshes)
    {
      if meshesLoaded {
        return;
      }
      StoreMeshes(mgr, MeshAssets(scene, meta.meshes));
      meshesLoaded := true;
    }

    /** `LoadTextures`: once, every recorded texture's file decoded and
        added as a texture asset under the entry's uuid. A file that does
        not decode fails the whole load before anything is added. */
    method LoadTextures(mgr: AssetManager.Manager, load: string -> Option<Image>) returns (r: Result<()>)
      modifies this`texturesLoaded, mgr`textures
      ensures r.Ok? <==> texturesLoaded
      ensures old(texturesLoaded) ==> r.Ok? && texturesLoaded && mgr.textures == old(mgr.textures)
      ensures !old(texturesLoaded) ==> (r.Ok? <==> AllLoad(meta.textures, load))
      ensures r.Err? ==> !texturesLoaded && mgr.textures == old(mgr.textures)
      ensures !old(texturesLoaded) && r.Ok? ==>
                texturesLoaded && mgr.textures == old(mgr.textures) + TextureAssets(meta.textures, load)
    {
      if texturesLoaded {
        return Ok(());
      }
      var entries := meta.textures;
      var failed := Decodes(entries, load);
      if failed.Some? {
        return Err("Failed to load texture: " + failed.value);
      }
      StoreTextures(mgr, TextureAssets(entries, load));
      texturesLoaded := true;
      r := Ok(());
    }

    /** `LoadMaterials`: once, the textures loaded first, then one
        material asset per material entry, under the entry's uuid and
        name, each slot bound to the stored texture of its uuid. A texture
        that fails to load fails the whole load. */
    method LoadMaterials(mgr: AssetManager.Manager, load: string -> Option<Image>) returns (r: Result<()>)
      requires Valid()
      modifies this`materialsLoaded, this`texturesLoaded, mgr`materials, mgr`textures
      ensures Valid() && (r.Ok? <==> materialsLoaded)
      ensures old(materialsLoaded) ==> r.Ok? && mgr.materials == old(mgr.materials) && mgr.textures == old(mgr.textures)
      ensures !old(materialsLoaded) ==> (r.Ok? <==> old(texturesLoaded) || AllLoad(meta.textures, load))
      ensures r.Err? ==> !materialsLoaded && mgr.materials == old(mgr.materials) && mgr.textures == old(mgr.textures)
      ensures !old(materialsLoaded) && r.Ok? ==>
                && materialsLoaded && texturesLoaded
                && (old(texturesLoaded) ==> mgr.textures == old(mgr.textures))
                && (!old(texturesLoaded) ==> mgr.textures == old(mgr.textures) + TextureAssets(meta.textures, load))
                && exists all :: MaterialsBuilt(meta.materials, mgr.textures, all) && mgr.materials == old(mgr.materials) + all
    {
      if materialsLoaded {
        return Ok(());
      }
      r := LoadTextures(mgr, load);
      if r.Err? {
        return;
      }
      var all := MaterialAssets(meta.materials, mgr.textures);
      StoreMaterials(mgr, all);
      materialsLoaded := true;
    }

    /** The document-writing part of `Import`. */
    method Record()
      requires Valid()
      modifies this`meta, this`next, this`nodeOf, this`root, this`lightsFirst, this`camerasFirst
      ensures Valid() && Recorded() && old(next) < lightsFirst
    {
      var m, n;
      m, n, nodeOf, root, lightsFirst, camerasFirst := ImportScene(scene, dir, textureSize, next);
      ImportedLoadable(scene, dir, m, nodeOf, root, lightsFirst, camerasFirst);
      meta, next := m, n;
    }

    /** `Import`: the metadata document written afresh from the scene,
        then the meshes and the materials loaded, each at most once over
        the importer's life, and finally a prefab of the importer's name
        and document handed to the asset manager. */
    method Import(mgr: AssetManager.Manager, shelf: Prefabs, load: string -> Option<Image>) returns (r: Result<()>)
      requires Valid()
      modifies this`meta, this`next, this`nodeOf, this`root, this`lightsFirst, this`camerasFirst
      modifies this`meshesLoaded, this`materialsLoaded, this`texturesLoaded, mgr`meshes, mgr`materials, mgr`textures
      modifies shelf
      ensures Valid()
      ensures Recorded() && old(next) < lightsFirst
      ensures meshesLoaded && (r.Ok? <==> materialsLoaded)
      ensures old(meshesLoaded) ==> mgr.meshes == old(mgr.meshes)
      ensures !old(meshesLoaded) ==> mgr.meshes == old(mgr.meshes) + MeshAssets(scene, meta.meshes)
      ensures r.Ok? ==> shelf.prefabs == old(shelf.prefabs) + [(name, meta)]
      ensures r.Err? ==> shelf.prefabs == old(shelf.prefabs)
    {
      Record();
      r := LoadAndShelve(mgr, shelf, load);
    }

    /** The part of `Import` after the document is written: the meshes,
        then the materials, then the prefab once both are loaded. */
    method LoadAndShelve(mgr: AssetManager.Manager, shelf: Prefabs, load: string -> Option<Image>) returns (r: Result<()>)
      requires Valid()
      modifies this`meshesLoaded, this`materialsLoaded, this`texturesLoaded, mgr`meshes, mgr`materials, mgr`textures
      modifies shelf
      ensures Valid()
      ensures meshesLoaded && (r.Ok? <==> materialsLoaded)
      ensures old(meshesLoaded) ==> mgr.meshes == old(mgr.meshes)
      ensures !old(meshesLoaded) ==> mgr.meshes == old(mgr.meshes) + MeshAssets(scene, meta.meshes)
      ensures r.Ok? ==> shelf.prefabs == old(shelf.prefabs) + [(name, meta)]
      ensures r.Err? ==> shelf.prefabs == old(shelf.prefabs)
    {
      LoadMeshes(mgr);
      r := LoadMaterials(mgr, load);
      if r.Ok? {
        shelf.AddPrefab(name, meta);
      }
    }
  }

  /** The asset manager's prefab list, which `AddPrefab` appends to: a
      prefab is a name and the document it loads from. The manager revision
      that declares the list is not part of this model, so the list is kept
      beside the manager. */
  class Prefabs {
    var prefabs: seq<(string, Meta)>

    constructor ()
      ensures prefabs == []
    {
      prefabs := [];
    }

    method AddPrefab(name: string, doc: Meta)
      modifies this
      ensures prefabs == old(prefabs) + [(name, doc)]
    {
      prefabs := prefabs + [(name, doc)];
    }
  }
}
