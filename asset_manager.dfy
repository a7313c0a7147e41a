/** The asset store (`src/assets/manager.cpp`): meshes, materials and
    textures owned by the manager and keyed by each asset's own uuid, and
    the three 1×1 fallback textures it creates. The editor panel the
    manager draws is not modelled. */
module AssetManager {
  import opened Wrappers
  import opened SceneObject
  import Texture

  datatype Mesh = Mesh(id: Uuid, name: string)

  /** A material's texture slot, named by the usage it feeds. */
  datatype Slot = Slot(usage: Texture.Usage)

  /** A material: each texture slot holds the texture the store had for
      the slot's uuid, or none (a null pointer) when it had none. */
  datatype Material = Material(id: Uuid, name: string, textures: map<Slot, Option<TextureAsset>>)

  /** A texture: square fallbacks carry their one RGBA pixel. */
  datatype TextureAsset = TextureAsset(id: Uuid, name: string, width: nat, height: nat, pixels: seq<bv8>)

  /** The three fallbacks built by the constructor, each 1×1. */
  function Fallback(id: Uuid, name: string, pixel: seq<bv8>): (t: TextureAsset)
    requires |pixel| == 4
    ensures t.id == id && t.name == name && t.width == 1 && t.height == 1 && |t.pixels| == 4
  {
    TextureAsset(id, name, 1, 1, pixel)
  }

  const BlackPixel: seq<bv8> := [0, 0, 0, 255]
  const WhitePixel: seq<bv8> := [255, 255, 255, 255]
  const NormalPixel: seq<bv8> := [127, 127, 255, 255]

  /** The store of fallback textures the constructor builds. */
  function Fallbacks(black: Uuid, white: Uuid, normal: Uuid): (r: map<Uuid, TextureAsset>)
    ensures r.Keys == {black, white, normal}
    ensures forall u :: u in r ==> r[u].id == u && r[u].width == 1 && r[u].height == 1
    ensures r[normal].name == "baseNormal"
    ensures white != normal ==> r[white].name == "white"
    ensures black != white && black != normal ==> r[black].name == "black"
  {
    map[black := Fallback(black, "black", BlackPixel),
        white := Fallback(white, "white", WhitePixel),
        normal := Fallback(normal, "baseNormal", NormalPixel)]
  }

  /** With three distinct uuids from the provider the store holds exactly
      three textures. */
  lemma ThreeFallbacks(black: Uuid, white: Uuid, normal: Uuid)
    requires black != white && white != normal && black != normal
    ensures |Fallbacks(black, white, normal)| == 3
  {
    assert Fallbacks(black, white, normal).Keys == {black} + {white} + {normal};
  }

  class Manager {
    var meshes: map<Uuid, Mesh>
    var materials: map<Uuid, Material>
    var textures: map<Uuid, TextureAsset>

    /** The constructor: exactly the three fallbacks, under the uuids the
        id provider hands out in turn (the provider is not modelled). */
    constructor (black: Uuid, white: Uuid, normal: Uuid)
      ensures meshes == map[] && materials == map[]
      ensures textures == Fallbacks(black, white, normal)
    {
      meshes, materials := map[], map[];
      textures := Fallbacks(black, white, normal);
    }

    /** `AddMesh`: stored under the mesh's own id, replacing what was there. */
    method AddMesh(m: Mesh)
      modifies this`meshes
      ensures meshes == old(meshes)[m.id := m]
    {
      meshes := meshes[m.id := m];
    }

    /** `GetMesh`: the stored mesh, null when absent. */
    function GetMesh(id: Uuid): (r: Option<Mesh>)
      reads this
      ensures r.None? <==> id !in meshes
      ensures r.Some? ==> r.value == meshes[id]
    {
      if id in meshes then Some(meshes[id]) else None
    }

    /** `RemoveMesh`: erases the id; an absent id changes nothing. */
    method RemoveMesh(id: Uuid)
      modifies this`meshes
      ensures meshes == old(meshes) - {id}
      ensures id !in old(meshes) ==> meshes == old(meshes)
    {
      meshes := meshes - {id};
    }

    method AddMaterial(m: Material)
      modifies this`materials
      ensures materials == old(materials)[m.id := m]
    {
      materials := materials[m.id := m];
    }

    function GetMaterial(id: Uuid): (r: Option<Material>)
      reads this
      ensures r.None? <==> id !in materials
      ensures r.Some? ==> r.value == materials[id]
    {
      if id in materials then Some(materials[id]) else None
    }

    method RemoveMaterial(id: Uuid)
      modifies this`materials
      ensures materials == old(materials) - {id}
      ensures id !in old(materials) ==> materials == old(materials)
    {
      materials := materials - {id};
    }

    method AddTexture(t: TextureAsset)
      modifies this`textures
      ensures textures == old(textures)[t.id := t]
    {
      textures := textures[t.id := t];
    }

    function GetTexture(id: Uuid): (r: Option<TextureAsset>)
      reads this
      ensures r.None? <==> id !in textures
      ensures r.Some? ==> r.value == textures[id]
    {
      if id in textures then Some(textures[id]) else None
    }

    method RemoveTexture(id: Uuid)
      modifies this`textures
      ensures textures == old(textures) - {id}
      ensures id !in old(textures) ==> textures == old(textures)
    {
      textures := textures - {id};
    }

    /** `GetRandomMesh`: some stored mesh (the first in the map's own
        order), null exactly when there is none. */
    method GetRandomMesh() returns (r: Option<Mesh>)
      ensures r.None? <==> meshes == map[]
      ensures r.Some? ==> r.value in meshes.Values
    {
      if meshes == map[] {
        return None;
      }
      var id :| id in meshes;
      r := Some(meshes[id]);
    }
  }
}
