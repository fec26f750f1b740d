/** Opaque stand-ins for the Unity objects that flow through the core: meshes,
    materials, transforms and the payloads of asset-bundle requests. */
module Assets {

  /** A material, identified by an opaque id. */
  type MaterialId = nat

  /** A mesh: an opaque id and its number of submeshes. */
  datatype Mesh = Mesh(id: nat, subMeshCount: nat)

  /** A node of a character hierarchy: an opaque id and its name. */
  datatype Transform = Transform(id: nat, name: string)

  /** The type argument of AssetBundle.LoadAsync. */
  datatype AssetKind = GameObjectKind | MaterialKind | StringHolderKind

  /** What a finished request yields: the renderer prefab of an element bundle
      (its mesh and material slots), a material, the bone-name holder, or the
      character base prefab (its hierarchy, in GetComponentsInChildren order). */
  datatype Asset =
    | Pending
    | RendererPrefab(mesh: Mesh, materials: seq<MaterialId>)
    | MaterialAsset(material: MaterialId)
    | StringHolder(content: seq<string>)
    | BasePrefab(transforms: seq<Transform>)
}
