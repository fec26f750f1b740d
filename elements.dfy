/** CharacterElement: one selectable option (a material of one renderer of one
    character) and the lazy, start-once loading of the three assets it needs from
    its bundle. */
module Elements {
  import opened Assets
  import opened Fetch

  /** The renderer object instantiated for one element, handed to the composer. */
  class RendererInstance {
    const sharedMesh: Mesh
    const materials: seq<MaterialId>

    constructor (sharedMesh: Mesh, materials: seq<MaterialId>)
      ensures this.sharedMesh == sharedMesh && this.materials == materials
    {
      this.sharedMesh := sharedMesh;
      this.materials := materials;
    }
  }

  /** Renderer.material = m on a renderer whose material slots are `slots`: the
      first slot becomes `m` (a renderer without slots gets one). */
  function WithFirstMaterial(slots: seq<MaterialId>, m: MaterialId): (r: seq<MaterialId>)
    ensures |r| == if |slots| == 0 then 1 else |slots|
    ensures r[0] == m
    ensures forall i :: 1 <= i < |slots| ==> r[i] == slots[i]
  {
    if |slots| == 0 then [m] else [m] + slots[1..]
  }

  class CharacterElement {
    const name: string
    const bundleName: string
    var gameObjectRequest: Request?
    var materialRequest: Request?
    var boneNameRequest: Request?

    constructor (name: string, bundleName: string)
      ensures this.name == name && this.bundleName == bundleName
      ensures gameObjectRequest == null && materialRequest == null && boneNameRequest == null
    {
      this.name := name;
      this.bundleName := bundleName;
      gameObjectRequest, materialRequest, boneNameRequest := null, null, null;
    }

    /** The WWW of this element's bundle, shared through `wwws` with every element
        that names the same bundle file. */
    method WWW(wwws: HandleCache) returns (h: Handle)
      requires wwws.Valid()
      modifies wwws
      ensures wwws.Valid()
      ensures bundleName in wwws.wwws && h == wwws.wwws[bundleName]
      ensures Extends(old(wwws.wwws), wwws.wwws, {bundleName})
    {
      h := wwws.GetOrCreate(bundleName);
    }

    /** The bundle is downloaded and all three asset loads have finished. */
    ghost predicate Loaded(wwws: HandleCache)
      reads this, wwws, wwws.wwws.Values, gameObjectRequest, materialRequest, boneNameRequest
    {
      && bundleName in wwws.wwws && wwws.wwws[bundleName].isDone
      && gameObjectRequest != null && gameObjectRequest.isDone
      && materialRequest != null && materialRequest.isDone
      && boneNameRequest != null && boneNameRequest.isDone
    }

    /** Polls readiness. Until the bundle is downloaded nothing is started; once it
        is, each of the three loads is started the first time it is missing and is
        never replaced afterwards. */
    method IsLoaded(wwws: HandleCache) returns (loaded: bool)
      requires wwws.Valid()
      modifies this, wwws
      ensures wwws.Valid()
      ensures bundleName in wwws.wwws
      ensures Extends(old(wwws.wwws), wwws.wwws, {bundleName})
      ensures loaded == Loaded(wwws)
      ensures Kept(old(gameObjectRequest), gameObjectRequest)
      ensures Kept(old(materialRequest), materialRequest)
      ensures Kept(old(boneNameRequest), boneNameRequest)
      ensures !wwws.wwws[bundleName].isDone ==>
        gameObjectRequest == old(gameObjectRequest) &&
        materialRequest == old(materialRequest) &&
        boneNameRequest == old(boneNameRequest)
      ensures wwws.wwws[bundleName].isDone ==>
        var h := wwws.wwws[bundleName];
        && gameObjectRequest != null && materialRequest != null && boneNameRequest != null
        && (old(gameObjectRequest) != null ==> gameObjectRequest == old(gameObjectRequest))
        && (old(materialRequest) != null ==> materialRequest == old(materialRequest))
        && (old(boneNameRequest) != null ==> boneNameRequest == old(boneNameRequest))
        && (old(gameObjectRequest) == null ==>
              fresh(gameObjectRequest) && !gameObjectRequest.isDone &&
              LoadOf(gameObjectRequest, h, "rendererobject", GameObjectKind))
        && (old(materialRequest) == null ==>
              fresh(materialRequest) && !materialRequest.isDone &&
              LoadOf(materialRequest, h, name, MaterialKind))
        && (old(boneNameRequest) == null ==>
              fresh(boneNameRequest) && !boneNameRequest.isDone &&
              LoadOf(boneNameRequest, h, "bonenames", StringHolderKind))
    {
      var h := WWW(wwws);
      if !h.isDone {
        return false;
      }
      if gameObjectRequest == null {
        gameObjectRequest := h.LoadAsync("rendererobject", GameObjectKind);
      }
      if materialRequest == null {
        materialRequest := h.LoadAsync(name, MaterialKind);
      }
      if boneNameRequest == null {
        boneNameRequest := h.LoadAsync("bonenames", StringHolderKind);
      }
      loaded := gameObjectRequest.isDone && materialRequest.isDone && boneNameRequest.isDone;
    }

    /** IsLoaded, as the configuration poll uses it: it answers Loaded, and a
        load that was started is still the same load afterwards. */
    method Poll(wwws: HandleCache) returns (loaded: bool)
      requires wwws.Valid()
      modifies this, wwws
      ensures wwws.Valid()
      ensures bundleName in wwws.wwws
      ensures Extends(old(wwws.wwws), wwws.wwws, {bundleName})
      ensures loaded == Loaded(wwws)
      ensures forall x: CharacterElement :: old(allocated(x)) && old(x.Loaded(wwws)) ==> x.Loaded(wwws)
      ensures forall x: CharacterElement :: old(allocated(x)) ==>
        && Kept(old(x.gameObjectRequest), x.gameObjectRequest)
        && Kept(old(x.materialRequest), x.materialRequest)
        && Kept(old(x.boneNameRequest), x.boneNameRequest)
    {
      loaded := IsLoaded(wwws);
    }

    /** A fresh renderer instantiated from the loaded renderer prefab, carrying this
        element's material in its first slot. */
    method GetSkinnedMeshRenderer() returns (r: RendererInstance)
      requires gameObjectRequest != null && gameObjectRequest.asset.RendererPrefab?
      requires materialRequest != null && materialRequest.asset.MaterialAsset?
      ensures fresh(r)
      ensures r.sharedMesh == gameObjectRequest.asset.mesh
      ensures r.materials ==
        WithFirstMaterial(gameObjectRequest.asset.materials, materialRequest.asset.material)
    {
      r := new RendererInstance(gameObjectRequest.asset.mesh,
        WithFirstMaterial(gameObjectRequest.asset.materials, materialRequest.asset.material));
    }

    /** The bone names stored in the bundle, unchanged. */
    function GetBoneNames(): (names: seq<string>)
      reads this, boneNameRequest
      requires boneNameRequest != null && boneNameRequest.asset.StringHolder?
      ensures names == boneNameRequest.asset.content
    {
      boneNameRequest.asset.content
    }
  }
}
