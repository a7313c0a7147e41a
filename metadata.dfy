/** Asset metadata (`src/assets/metadata.cpp`): two uuid↔index mappings,
    one for meshes and one for materials, each a forward map with an
    inverse kept beside it; loading rebuilds the inverses, saving derives
    the file name from the asset's path. File I/O and JSON encoding are not
    modelled: a load takes the parsed document, or none when the file does
    not open. */
module Metadata {
  import opened Wrappers
  import Text

  /** A `uint32_t` index. */
  type U32 = i: nat | i < 0x1_0000_0000

  /** `-1` converted to `uint32_t`: the "unknown uuid" answer. */
  const NoId: U32 := 0xFFFF_FFFF

  /** A forward uuid→index map and the inverse map beside it. */
  datatype Mapping = Mapping(forward: map<string, U32>, inverse: map<U32, string>)

  /** `GetMeshID`/`GetMaterialID`: the index mapped to `uuid`, `-1` when
      unknown. */
  function IdOf(m: Mapping, uuid: string): (r: U32)
    ensures uuid in m.forward ==> r == m.forward[uuid]
    ensures uuid !in m.forward ==> r == NoId
  {
    if uuid in m.forward then m.forward[uuid] else NoId
  }

  /** `GetMeshUUID`/`GetMaterialUUID`: the uuid recorded for `id`, the
      empty string when unknown. */
  function UuidOf(m: Mapping, id: U32): (r: string)
    ensures id in m.inverse ==> r == m.inverse[id]
    ensures id !in m.inverse ==> r == ""
  {
    if id in m.inverse then m.inverse[id] else ""
  }

  /** `AddMeshMapping`/`AddMaterialMapping`: both directions answer the new
      pair; every other uuid and every other index keeps its answer. */
  function Add(m: Mapping, uuid: string, id: U32): (r: Mapping)
    ensures IdOf(r, uuid) == id && UuidOf(r, id) == uuid
    ensures forall v :: v != uuid ==> IdOf(r, v) == IdOf(m, v)
    ensures forall j: U32 :: j != id ==> UuidOf(r, j) == UuidOf(m, j)
  {
    Mapping(m.forward[uuid := id], m.inverse[id := uuid])
  }

  /** Re-mapping a uuid to a new index leaves the old index answering that
      uuid: the inverse keeps the stale entry. */
  lemma RemapLeavesStale(m: Mapping, uuid: string, i: U32, j: U32)
    requires i != j
    ensures IdOf(Add(Add(m, uuid, i), uuid, j), uuid) == j
    ensures UuidOf(Add(Add(m, uuid, i), uuid, j), i) == uuid
    ensures UuidOf(Add(Add(m, uuid, i), uuid, j), j) == uuid
  {
  }

  /** Every inverse entry points back to a forward entry with its index. */
  ghost predicate Consistent(m: Mapping)
  {
    forall i :: i in m.inverse ==> m.inverse[i] in m.forward && m.forward[m.inverse[i]] == i
  }

  ghost predicate Injective(forward: map<string, U32>)
  {
    forall u, v :: u in forward && v in forward && forward[u] == forward[v] ==> u == v
  }

  /** The loop of `Load` over a forward map, in the map's own order:
      every index of the forward map gets an inverse entry naming a uuid
      mapped to it. */
  method Invert(forward: map<string, U32>) returns (inverse: map<U32, string>)
    ensures inverse.Keys == forward.Values
    ensures Consistent(Mapping(forward, inverse))
  {
    inverse := map[];
    var left := forward.Keys;
    while left != {}
      invariant left <= forward.Keys
      invariant inverse.Keys == set u | u in forward && u !in left :: forward[u]
      invariant Consistent(Mapping(forward, inverse))
      decreases |left|
    {
      var u :| u in left;
      inverse := inverse[forward[u] := u];
      left := left - {u};
    }
  }

  /** With no index shared by two uuids, the rebuilt inverse is the exact
      inverse of the forward map: the two maps answer each other. */
  lemma ExactInverse(m: Mapping, uuid: string)
    requires Consistent(m) && m.inverse.Keys == m.forward.Values && Injective(m.forward)
    requires uuid in m.forward
    ensures UuidOf(m, IdOf(m, uuid)) == uuid
  {
    var i := m.forward[uuid];
    assert i in m.forward.Values;
    assert m.forward[m.inverse[i]] == i;
  }

  /** The parsed `.meta` document. */
  datatype Document = Document(path: string, meshMapping: map<string, U32>, materialMapping: map<string, U32>)

  /** The separators `Save` strips the directory at. */
  const Separators: set<char> := {'/', '\\'}

  /** The file `Load(name)` reads. */
  function LoadFile(name: string): (r: string)
    ensures r == "metadata/" + name + ".meta"
  {
    "metadata/" + name + ".meta"
  }

  /** The file `Save` writes: the path's last component after either
      separator, without its last extension. */
  function SaveFile(path: string): (r: string)
  {
    LoadFile(Text.BeforeLast(Text.AfterLast(path, Separators), {'.'}))
  }

  /** What `Save` writes, `Load` of the bare file name finds. */
  lemma SaveThenLoadFile(dir: string, stem: string, ext: string)
    requires forall k :: 0 <= k < |stem| ==> stem[k] !in Separators
    requires forall k :: 0 <= k < |ext| ==> ext[k] !in Separators && ext[k] != '.'
    ensures SaveFile(dir + "/" + stem + "." + ext) == LoadFile(stem)
  {
    var name := stem + "." + ext;
    assert forall k :: 0 <= k < |name| ==> name[k] !in Separators;
    assert dir + "/" + stem + "." + ext == dir + ['/'] + name;
    Text.SplitJoin(dir, '/', name, Separators);
    assert name == stem + ['.'] + ext;
    Text.SplitJoin(stem, '.', ext, {'.'});
  }

  class Metadata {
    var path: string
    var meshes: Mapping
    var materials: Mapping

    /** `Metadata(path)` / `Create`: both mappings empty. */
    constructor (path: string)
      ensures this.path == path && meshes == Mapping(map[], map[]) && materials == Mapping(map[], map[])
    {
      this.path := path;
      meshes, materials := Mapping(map[], map[]), Mapping(map[], map[]);
    }

    method AddMeshMapping(uuid: string, id: U32)
      modifies this`meshes
      ensures meshes == Add(old(meshes), uuid, id)
    {
      meshes := Add(meshes, uuid, id);
    }

    function GetMeshID(uuid: string): (r: U32)
      reads this
      ensures r == IdOf(meshes, uuid)
    {
      IdOf(meshes, uuid)
    }

    function GetMeshUUID(id: U32): (r: string)
      reads this
      ensures r == UuidOf(meshes, id)
    {
      UuidOf(meshes, id)
    }

    method AddMaterialMapping(uuid: string, id: U32)
      modifies this`materials
      ensures materials == Add(old(materials), uuid, id)
    {
      materials := Add(materials, uuid, id);
    }

    function GetMaterialID(uuid: string): (r: U32)
      reads this
      ensures r == IdOf(materials, uuid)
    {
      IdOf(materials, uuid)
    }

    function GetMaterialUUID(id: U32): (r: string)
      reads this
      ensures r == UuidOf(materials, id)
    {
      UuidOf(materials, id)
    }

    /** `Save`: the file written and the document written to it. */
    function Save(): (r: (string, Document))
      reads this
      ensures r.0 == SaveFile(path)
      ensures r.1 == Document(path, meshes.forward, materials.forward)
    {
      (SaveFile(path), Document(path, meshes.forward, materials.forward))
    }
  }

  /** `Load`: none when the file does not open; otherwise the stored path
      and forward maps, with each inverse rebuilt from its forward map. */
  method Load(file: Option<Document>) returns (r: Option<Metadata>)
    ensures file.None? <==> r.None?
    ensures r.Some? ==> fresh(r.value) && r.value.path == file.value.path
    ensures r.Some? ==> r.value.meshes.forward == file.value.meshMapping && r.value.materials.forward == file.value.materialMapping
    ensures r.Some? ==> r.value.meshes.inverse.Keys == file.value.meshMapping.Values && Consistent(r.value.meshes)
    ensures r.Some? ==> r.value.materials.inverse.Keys == file.value.materialMapping.Values && Consistent(r.value.materials)
  {
    if file.None? {
      return None;
    }
    var doc := file.value;
    var m := new Metadata(doc.path);
    var meshInverse := Invert(doc.meshMapping);
    var materialInverse := Invert(doc.materialMapping);
    m.meshes := Mapping(doc.meshMapping, meshInverse);
    m.materials := Mapping(doc.materialMapping, materialInverse);
    r := Some(m);
  }
}
