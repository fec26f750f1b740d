/** The editor command "Generate Materials": for every selected character model,
    one material per texture whose name contains the name of one of the model's
    renderers, with a normal map when the renderer has one. The selection, each
    model's renderer names, the texture listings and the files already on disk
    are inputs; the materials to create are the output. */
module GenerateMaterials {
  import opened Outcomes
  import opened Seqs
  import opened Text
  import opened ElementDatabase

  datatype Texture = Texture(id: nat, name: string)

  /** An object of the editor selection: whether it is a GameObject, its name, its
      asset path and the names of the SkinnedMeshRenderers under it. */
  datatype SelectedObject = SelectedObject(isGameObject: bool, name: string, assetPath: string,
                                           renderers: seq<string>)

  /** A material asset to create at `path`, textured with `mainTex` and, when there
      is one, the normal map `bumpMap`. */
  datatype NewMaterial = NewMaterial(path: string, shader: string, mainTex: Texture, bumpMap: Option<Texture>)

  /** What the command has done so far: the files that exist, the materials it
      created, in order, and whether any texture matched a renderer. */
  datatype Plan = Plan(files: set<string>, created: seq<NewMaterial>, validMaterial: bool)

  /** CharacterRoot: the directory of an asset path, up to and including its last
      '/', or "" when it has none. */
  function CharacterRoot(assetPath: string): (root: string)
    ensures root == "" <==> '/' !in assetPath
    ensures root != "" ==> root[|root| - 1] == '/'
    ensures root + FileName(assetPath) == assetPath
  {
    var i := LastIndexOf(assetPath, '/');
    assert assetPath[..i + 1] + assetPath[i + 1..] == assetPath;
    assetPath[..i + 1]
  }

  /** MaterialsPath: where the generated materials of a model go, a directory beside
      the model named after GeneratedDir; no separator is appended. */
  function MaterialsPath(assetPath: string): (p: string)
    ensures StartsWith(p, CharacterRoot(assetPath))
    ensures FileName(p) == GeneratedDir
    ensures Contains(p, GeneratedDir)
    ensures p != "" && p[|p| - 1] != '/'
  {
    var root := CharacterRoot(assetPath);
    FileNameInDir(root, GeneratedDir);
    ContainsSuffix(root, GeneratedDir);
    root + GeneratedDir
  }

  /** Where the textures of a model are collected from: the "textures" directory
      beside the model. */
  function TexturesPath(assetPath: string): (p: string)
    ensures StartsWith(p, CharacterRoot(assetPath))
    ensures FileName(p) == "textures"
  {
    var root := CharacterRoot(assetPath);
    FileNameInDir(root, "textures");
    root + "textures"
  }

  /** Only GameObjects without '@' in their name and under a "/characters/" path are processed. */
  predicate Processed(o: SelectedObject) {
    o.isGameObject && !Contains(o.name, "@") && Contains(o.assetPath, "/characters/")
  }

  predicate IsNormalMapOf(t: Texture, renderer: string) {
    Contains(Lower(t.name), "normal") && Contains(Lower(t.name), Lower(renderer))
  }

  /** The textures a renderer gets a material for: named after it, and no normal map. */
  predicate GetsMaterial(t: Texture, renderer: string) {
    !Contains(Lower(t.name), "normal") && Contains(Lower(t.name), Lower(renderer))
  }

  /** The renderer's normal map: the first texture of the listing that is one. */
  function NormalMap(textures: seq<Texture>, renderer: string): (r: Option<Texture>)
    ensures r.None? <==> forall k :: 0 <= k < |textures| ==> !IsNormalMapOf(textures[k], renderer)
    ensures r.Some? ==> exists i :: (0 <= i < |textures| && textures[i] == r.value &&
      IsNormalMapOf(r.value, renderer) && forall k :: 0 <= k < i ==> !IsNormalMapOf(textures[k], renderer))
  {
    if |textures| == 0 then None
    else if IsNormalMapOf(textures[0], renderer) then Some(textures[0])
    else
      var r := NormalMap(textures[1..], renderer);
      assert forall k :: 1 <= k < |textures| ==> textures[k] == textures[1..][k - 1];
      r
  }

  function MaterialPath(assetPath: string, t: Texture): string {
    MaterialsPath(assetPath) + "/" + Lower(t.name) + ".mat"
  }

  /** The shader: "Bumped Specular" with a normal map, "Specular" without. */
  function ShaderFor(normal: Option<Texture>): string {
    if normal.Some? then "Bumped Specular" else "Specular"
  }

  /** One texture for one renderer: a matching texture sets validMaterial, and gets
      a material unless its path already exists. */
  function PlanTexture(p: Plan, assetPath: string, renderer: string, normal: Option<Texture>, t: Texture): Plan {
    if !GetsMaterial(t, renderer) then p
    else
      var path := MaterialPath(assetPath, t);
      if path in p.files then p.(validMaterial := true)
      else Plan(p.files + {path}, p.created + [MaterialFor(assetPath, normal, t)], true)
  }

  /** The scan of one renderer over the texture listing. */
  function PlanTextures(p: Plan, assetPath: string, renderer: string, normal: Option<Texture>,
                        ts: seq<Texture>): Plan
  {
    if |ts| == 0 then p
    else PlanTexture(PlanTextures(p, assetPath, renderer, normal, ts[..|ts| - 1]),
                     assetPath, renderer, normal, ts[|ts| - 1])
  }

  /** The scan of one model's renderers, each with its own normal map. */
  function PlanRenderers(p: Plan, assetPath: string, textures: seq<Texture>, rs: seq<string>): Plan {
    if |rs| == 0 then p
    else
      var r := rs[|rs| - 1];
      PlanTextures(PlanRenderers(p, assetPath, textures, rs[..|rs| - 1]),
                   assetPath, r, NormalMap(textures, r), textures)
  }

  /** The scan of the selection; `listing` gives the textures found under a directory. */
  function PlanObjects(p: Plan, listing: string -> seq<Texture>, os: seq<SelectedObject>): Plan {
    if |os| == 0 then p
    else
      var prev := PlanObjects(p, listing, os[..|os| - 1]);
      var o := os[|os| - 1];
      if Processed(o) then PlanRenderers(prev, o.assetPath, listing(TexturesPath(o.assetPath)), o.renderers)
      else prev
  }

  // ----- the command -----

  /** The normal-map search loop. */
  method FindNormalMap(textures: seq<Texture>, renderer: string) returns (normal: Option<Texture>)
    ensures normal == NormalMap(textures, renderer)
  {
    var lowerRenderer := Lower(renderer);
    var i := 0;
    while i < |textures|
      invariant 0 <= i <= |textures|
      invariant NormalMap(textures, renderer) == NormalMap(textures[i..], renderer)
    {
      var t := textures[i];
      if Contains(Lower(t.name), "normal") && Contains(Lower(t.name), lowerRenderer) {
        return Some(t);
      }
      assert textures[i..][1..] == textures[i + 1..];
      i := i + 1;
    }
    return None;
  }

  /** The material-creating loop of one renderer over the textures. */
  method CreateMaterials(p: Plan, assetPath: string, renderer: string, normal: Option<Texture>,
                         textures: seq<Texture>) returns (q: Plan)
    ensures q == PlanTextures(p, assetPath, renderer, normal, textures)
  {
    var files, created, validMaterial := p.files, p.created, p.validMaterial;
    var lowerRenderer := Lower(renderer);
    for i := 0 to |textures|
      invariant Plan(files, created, validMaterial) == PlanTextures(p, assetPath, renderer, normal, textures[..i])
    {
      assert textures[..i + 1][..i] == textures[..i];
      var t := textures[i];
      if Contains(Lower(t.name), "normal") || !Contains(Lower(t.name), lowerRenderer) {
        continue;
      }
      validMaterial := true;
      var materialPath := MaterialsPath(assetPath) + "/" + Lower(t.name) + ".mat";
      if materialPath in files {
        continue;
      }
      var shader := "Specular";
      if normal.Some? {
        shader := "Bumped Specular";
      }
      created := created + [NewMaterial(materialPath, shader, t, normal)];
      files := files + {materialPath};
    }
    assert textures[..|textures|] == textures;
    q := Plan(files, created, validMaterial);
  }

  /** The loop over one model's renderers. */
  method ProcessModel(p: Plan, assetPath: string, textures: seq<Texture>, renderers: seq<string>)
    returns (q: Plan)
    ensures q == PlanRenderers(p, assetPath, textures, renderers)
  {
    q := p;
    for j := 0 to |renderers|
      invariant q == PlanRenderers(p, assetPath, textures, renderers[..j])
    {
      assert renderers[..j + 1][..j] == renderers[..j];
      var normal := FindNormalMap(textures, renderers[j]);
      q := CreateMaterials(q, assetPath, renderers[j], normal, textures);
    }
    assert renderers[..|renderers|] == renderers;
  }

  /** Execute: the materials created, in order, and whether the "No Materials
      created" dialog is shown. */
  method Execute(selection: seq<SelectedObject>, listing: string -> seq<Texture>, existing: set<string>)
    returns (created: seq<NewMaterial>, showDialog: bool)
    ensures var p := PlanObjects(Plan(existing, [], false), listing, selection);
      created == p.created && showDialog == !p.validMaterial
  {
    var p0 := Plan(existing, [], false);
    var p := p0;
    for i := 0 to |selection|
      invariant p == PlanObjects(p0, listing, selection[..i])
    {
      assert selection[..i + 1][..i] == selection[..i];
      var o := selection[i];
      if !o.isGameObject || Contains(o.name, "@") || !Contains(o.assetPath, "/characters/") {
        continue;
      }
      var textures := listing(CharacterRoot(o.assetPath) + "textures");
      p := ProcessModel(p, o.assetPath, textures, o.renderers);
    }
    assert selection[..|selection|] == selection;
    created, showDialog := p.created, !p.validMaterial;
  }

  // ----- what a run creates -----

  /** A plan started from the files `pre`: every created material has a path that did
      not exist before and now does, no path is created twice, every new file is a
      created material, and each shader matches the presence of a normal map. */
  ghost predicate Sound(pre: set<string>, p: Plan) {
    && pre <= p.files
    && (forall i :: 0 <= i < |p.created| ==> p.created[i].path in p.files && p.created[i].path !in pre)
    && (forall i, j :: 0 <= i < j < |p.created| ==> p.created[i].path != p.created[j].path)
    && (forall i :: 0 <= i < |p.created| ==> p.created[i].shader == ShaderFor(p.created[i].bumpMap))
    && (forall f :: f in p.files ==> f in pre || exists i :: 0 <= i < |p.created| && p.created[i].path == f)
  }

  /** Creating one more material at a path that does not exist keeps a plan sound. */
  lemma CreateSound(pre: set<string>, p: Plan, m: NewMaterial)
    requires Sound(pre, p)
    requires m.path !in p.files && m.shader == ShaderFor(m.bumpMap)
    ensures Sound(pre, Plan(p.files + {m.path}, p.created + [m], true))
  {
    var q := Plan(p.files + {m.path}, p.created + [m], true);
    var n := |p.created|;
    assert q.created[n] == m;
    forall f | f in q.files
      ensures f in pre || exists i :: 0 <= i < |q.created| && q.created[i].path == f
    {
      if f in p.files && f !in pre {
        var i :| 0 <= i < n && p.created[i].path == f;
        assert q.created[i].path == f;
      }
    }
  }

  lemma PlanTextureSound(pre: set<string>, p: Plan, assetPath: string, renderer: string,
                         normal: Option<Texture>, t: Texture)
    requires Sound(pre, p)
    ensures Sound(pre, PlanTexture(p, assetPath, renderer, normal, t))
  {
    if GetsMaterial(t, renderer) && MaterialPath(assetPath, t) !in p.files {
      CreateSound(pre, p, MaterialFor(assetPath, normal, t));
    }
  }

  lemma {:induction false} PlanTexturesSound(pre: set<string>, p: Plan, assetPath: string, renderer: string,
                                             normal: Option<Texture>, ts: seq<Texture>)
    requires Sound(pre, p)
    ensures Sound(pre, PlanTextures(p, assetPath, renderer, normal, ts))
  {
    if |ts| > 0 {
      PlanTexturesSound(pre, p, assetPath, renderer, normal, ts[..|ts| - 1]);
      PlanTextureSound(pre, PlanTextures(p, assetPath, renderer, normal, ts[..|ts| - 1]),
                       assetPath, renderer, normal, ts[|ts| - 1]);
    }
  }

  lemma {:induction false} PlanRenderersSound(pre: set<string>, p: Plan, assetPath: string,
                                              textures: seq<Texture>, rs: seq<string>)
    requires Sound(pre, p)
    ensures Sound(pre, PlanRenderers(p, assetPath, textures, rs))
  {
    if |rs| > 0 {
      var r := rs[|rs| - 1];
      PlanRenderersSound(pre, p, assetPath, textures, rs[..|rs| - 1]);
      PlanTexturesSound(pre, PlanRenderers(p, assetPath, textures, rs[..|rs| - 1]),
                        assetPath, r, NormalMap(textures, r), textures);
    }
  }

  lemma {:induction false} PlanObjectsSound(pre: set<string>, p: Plan, listing: string -> seq<Texture>,
                                            os: seq<SelectedObject>)
    requires Sound(pre, p)
    ensures Sound(pre, PlanObjects(p, listing, os))
  {
    if |os| > 0 {
      var o := os[|os| - 1];
      PlanObjectsSound(pre, p, listing, os[..|os| - 1]);
      if Processed(o) {
        PlanRenderersSound(pre, PlanObjects(p, listing, os[..|os| - 1]), o.assetPath,
                           listing(TexturesPath(o.assetPath)), o.renderers);
      }
    }
  }

  /** A run never overwrites a file, never creates a path twice, creates only files
      that did not exist, and uses "Bumped Specular" exactly for the materials that
      have a normal map. */
  lemma ExecuteSound(selection: seq<SelectedObject>, listing: string -> seq<Texture>, existing: set<string>)
    ensures Sound(existing, PlanObjects(Plan(existing, [], false), listing, selection))
  {
    PlanObjectsSound(existing, Plan(existing, [], false), listing, selection);
  }

  /** The paths of the textures of `ts` that get a material for `renderer`. */
  ghost function MaterialPaths(assetPath: string, renderer: string, ts: seq<Texture>): set<string> {
    set t | t in ts && GetsMaterial(t, renderer) :: MaterialPath(assetPath, t)
  }

  lemma MaterialPathsSnoc(assetPath: string, renderer: string, ts: seq<Texture>, t: Texture)
    ensures MaterialPaths(assetPath, renderer, ts + [t]) ==
      MaterialPaths(assetPath, renderer, ts) + (if GetsMaterial(t, renderer) then {MaterialPath(assetPath, t)} else {})
  {
  }

  /** One renderer's scan: afterwards a file exists for exactly the textures that get
      a material, besides the files that existed before. */
  lemma {:induction false} PlanTexturesFiles(p: Plan, assetPath: string, renderer: string,
                                             normal: Option<Texture>, ts: seq<Texture>)
    ensures PlanTextures(p, assetPath, renderer, normal, ts).files ==
      p.files + MaterialPaths(assetPath, renderer, ts)
  {
    if |ts| > 0 {
      var init := ts[..|ts| - 1];
      PlanTexturesFiles(p, assetPath, renderer, normal, init);
      assert ts == init + [ts[|ts| - 1]];
      MaterialPathsSnoc(assetPath, renderer, init, ts[|ts| - 1]);
    }
  }

  /** The paths of the materials the renderers `rs` of a model get from `textures`. */
  ghost function RendererPaths(assetPath: string, textures: seq<Texture>, rs: seq<string>): set<string> {
    if |rs| == 0 then {}
    else RendererPaths(assetPath, textures, rs[..|rs| - 1]) + MaterialPaths(assetPath, rs[|rs| - 1], textures)
  }

  /** The paths of the materials the processed models of `os` get. */
  ghost function ObjectPaths(listing: string -> seq<Texture>, os: seq<SelectedObject>): set<string> {
    if |os| == 0 then {}
    else
      var o := os[|os| - 1];
      ObjectPaths(listing, os[..|os| - 1]) +
        (if Processed(o) then RendererPaths(o.assetPath, listing(TexturesPath(o.assetPath)), o.renderers) else {})
  }

  /** One model's scan: afterwards a file exists for exactly the (renderer, texture)
      pairs that get a material, besides the files that existed before. */
  lemma {:induction false} PlanRenderersFiles(p: Plan, assetPath: string, textures: seq<Texture>,
                                              rs: seq<string>)
    ensures PlanRenderers(p, assetPath, textures, rs).files == p.files + RendererPaths(assetPath, textures, rs)
  {
    if |rs| > 0 {
      var r := rs[|rs| - 1];
      PlanRenderersFiles(p, assetPath, textures, rs[..|rs| - 1]);
      PlanTexturesFiles(PlanRenderers(p, assetPath, textures, rs[..|rs| - 1]), assetPath, r,
                        NormalMap(textures, r), textures);
    }
  }

  /** The whole selection: the files are the old ones plus the material paths of
      every processed model. */
  lemma {:induction false} PlanObjectsFiles(p: Plan, listing: string -> seq<Texture>, os: seq<SelectedObject>)
    ensures PlanObjects(p, listing, os).files == p.files + ObjectPaths(listing, os)
  {
    if |os| > 0 {
      var o := os[|os| - 1];
      PlanObjectsFiles(p, listing, os[..|os| - 1]);
      if Processed(o) {
        PlanRenderersFiles(PlanObjects(p, listing, os[..|os| - 1]), o.assetPath,
                           listing(TexturesPath(o.assetPath)), o.renderers);
      }
    }
  }

  lemma {:induction false} RendererPathsHas(assetPath: string, textures: seq<Texture>, rs: seq<string>,
                                            j: nat, t: Texture)
    requires j < |rs| && t in textures && GetsMaterial(t, rs[j])
    ensures MaterialPath(assetPath, t) in RendererPaths(assetPath, textures, rs)
  {
    if j < |rs| - 1 {
      RendererPathsHas(assetPath, textures, rs[..|rs| - 1], j, t);
    }
  }

  lemma {:induction false} ObjectPathsHas(listing: string -> seq<Texture>, os: seq<SelectedObject>,
                                          i: nat, j: nat, t: Texture)
    requires i < |os| && Processed(os[i]) && j < |os[i].renderers|
    requires t in listing(TexturesPath(os[i].assetPath)) && GetsMaterial(t, os[i].renderers[j])
    ensures MaterialPath(os[i].assetPath, t) in ObjectPaths(listing, os)
  {
    if i < |os| - 1 {
      ObjectPathsHas(listing, os[..|os| - 1], i, j, t);
    } else {
      RendererPathsHas(os[i].assetPath, listing(TexturesPath(os[i].assetPath)), os[i].renderers, j, t);
    }
  }

  /** After the command, every texture that gets a material for a renderer of a
      processed model has its material file, created now or already there. */
  lemma ExecuteFiles(selection: seq<SelectedObject>, listing: string -> seq<Texture>, existing: set<string>,
                     i: nat, j: nat, t: Texture)
    requires i < |selection| && Processed(selection[i]) && j < |selection[i].renderers|
    requires t in listing(TexturesPath(selection[i].assetPath)) && GetsMaterial(t, selection[i].renderers[j])
    ensures MaterialPath(selection[i].assetPath, t) in PlanObjects(Plan(existing, [], false), listing, selection).files
  {
    PlanObjectsFiles(Plan(existing, [], false), listing, selection);
    ObjectPathsHas(listing, selection, i, j, t);
  }

  /** The material made for texture `t` of a renderer with normal map `normal`. */
  function MaterialFor(assetPath: string, normal: Option<Texture>, t: Texture): NewMaterial {
    NewMaterial(MaterialPath(assetPath, t), ShaderFor(normal), t, normal)
  }

  /** One texture appends nothing, or the material of a texture that gets one. */
  lemma PlanTextureCreated(p: Plan, assetPath: string, renderer: string, normal: Option<Texture>, t: Texture)
    ensures var q := PlanTexture(p, assetPath, renderer, normal, t);
      q.created == p.created ||
      (GetsMaterial(t, renderer) && q.created == p.created + [MaterialFor(assetPath, normal, t)])
  {
  }

  /** One renderer's scan only appends to the created materials. */
  lemma {:induction false} PlanTexturesAppends(p: Plan, assetPath: string, renderer: string,
                                               normal: Option<Texture>, ts: seq<Texture>)
    ensures p.created <= PlanTextures(p, assetPath, renderer, normal, ts).created
  {
    if |ts| > 0 {
      PlanTexturesAppends(p, assetPath, renderer, normal, ts[..|ts| - 1]);
      PlanTextureCreated(PlanTextures(p, assetPath, renderer, normal, ts[..|ts| - 1]),
                         assetPath, renderer, normal, ts[|ts| - 1]);
    }
  }

  /** Each material a renderer's scan appends is the material of a texture `t` of the
      listing that gets one, made with the renderer's normal map. */
  lemma {:induction false} PlanTexturesOrigin(p: Plan, assetPath: string, renderer: string,
                                              normal: Option<Texture>, ts: seq<Texture>, k: nat)
    returns (t: Texture)
    requires |p.created| <= k < |PlanTextures(p, assetPath, renderer, normal, ts).created|
    ensures t in ts && GetsMaterial(t, renderer)
    ensures PlanTextures(p, assetPath, renderer, normal, ts).created[k] == MaterialFor(assetPath, normal, t)
  {
    var init := ts[..|ts| - 1];
    var last := ts[|ts| - 1];
    var before := PlanTextures(p, assetPath, renderer, normal, init).created;
    PlanTextureCreated(PlanTextures(p, assetPath, renderer, normal, init), assetPath, renderer, normal, last);
    assert ts == init + [last];
    if k < |before| {
      t := PlanTexturesOrigin(p, assetPath, renderer, normal, init, k);
    } else {
      t := last;
    }
  }

  lemma {:induction false} PlanRenderersAppends(p: Plan, assetPath: string, textures: seq<Texture>,
                                                rs: seq<string>)
    ensures p.created <= PlanRenderers(p, assetPath, textures, rs).created
  {
    if |rs| > 0 {
      var r := rs[|rs| - 1];
      PlanRenderersAppends(p, assetPath, textures, rs[..|rs| - 1]);
      PlanTexturesAppends(PlanRenderers(p, assetPath, textures, rs[..|rs| - 1]),
                          assetPath, r, NormalMap(textures, r), textures);
    }
  }

  /** Each material a model's scan appends belongs to one of its renderers `r` and a
      texture `t` that gets a material for it, with `r`'s normal map. */
  lemma {:induction false} PlanRenderersOrigin(p: Plan, assetPath: string, textures: seq<Texture>,
                                               rs: seq<string>, k: nat)
    returns (r: string, t: Texture)
    requires |p.created| <= k < |PlanRenderers(p, assetPath, textures, rs).created|
    ensures r in rs && t in textures && GetsMaterial(t, r)
    ensures PlanRenderers(p, assetPath, textures, rs).created[k] ==
      MaterialFor(assetPath, NormalMap(textures, r), t)
  {
    var init := rs[..|rs| - 1];
    var last := rs[|rs| - 1];
    var mid := PlanRenderers(p, assetPath, textures, init);
    PlanTexturesAppends(mid, assetPath, last, NormalMap(textures, last), textures);
    assert rs == init + [last];
    if k < |mid.created| {
      r, t := PlanRenderersOrigin(p, assetPath, textures, init, k);
    } else {
      r := last;
      t := PlanTexturesOrigin(mid, assetPath, last, NormalMap(textures, last), textures, k);
    }
  }

  lemma {:induction false} PlanObjectsAppends(p: Plan, listing: string -> seq<Texture>, os: seq<SelectedObject>)
    ensures p.created <= PlanObjects(p, listing, os).created
  {
    if |os| > 0 {
      var o := os[|os| - 1];
      PlanObjectsAppends(p, listing, os[..|os| - 1]);
      if Processed(o) {
        PlanRenderersAppends(PlanObjects(p, listing, os[..|os| - 1]), o.assetPath,
                             listing(TexturesPath(o.assetPath)), o.renderers);
      }
    }
  }

  /** Each material a run creates belongs to a processed model `o` of the selection,
      one of its renderers `r` and a texture `t` of its listing that gets a material
      for `r`; its path, shader and textures are the ones made for `t` with `r`'s
      normal map. */
  lemma {:induction false} PlanObjectsOrigin(p: Plan, listing: string -> seq<Texture>,
                                             os: seq<SelectedObject>, k: nat)
    returns (o: SelectedObject, r: string, t: Texture)
    requires |p.created| <= k < |PlanObjects(p, listing, os).created|
    ensures o in os && Processed(o) && r in o.renderers
    ensures t in listing(TexturesPath(o.assetPath)) && GetsMaterial(t, r)
    ensures PlanObjects(p, listing, os).created[k] ==
      MaterialFor(o.assetPath, NormalMap(listing(TexturesPath(o.assetPath)), r), t)
  {
    var init := os[..|os| - 1];
    var last := os[|os| - 1];
    var mid := PlanObjects(p, listing, init);
    assert os == init + [last];
    if k < |mid.created| {
      if Processed(last) {
        PlanRenderersAppends(mid, last.assetPath, listing(TexturesPath(last.assetPath)), last.renderers);
      }
      o, r, t := PlanObjectsOrigin(p, listing, init, k);
    } else {
      o := last;
      r, t := PlanRenderersOrigin(mid, last.assetPath, listing(TexturesPath(last.assetPath)), last.renderers, k);
    }
  }

  // ----- the "No Materials created" dialog -----

  lemma {:induction false} PlanTexturesValid(p: Plan, assetPath: string, renderer: string,
                                             normal: Option<Texture>, ts: seq<Texture>)
    ensures PlanTextures(p, assetPath, renderer, normal, ts).validMaterial <==>
      p.validMaterial || exists t :: t in ts && GetsMaterial(t, renderer)
  {
    if |ts| > 0 {
      var init := ts[..|ts| - 1];
      PlanTexturesValid(p, assetPath, renderer, normal, init);
      assert ts == init + [ts[|ts| - 1]];
    }
  }

  lemma {:induction false} PlanRenderersValid(p: Plan, assetPath: string, textures: seq<Texture>,
                                              rs: seq<string>)
    ensures PlanRenderers(p, assetPath, textures, rs).validMaterial <==>
      p.validMaterial || exists r, t :: r in rs && t in textures && GetsMaterial(t, r)
  {
    if |rs| > 0 {
      var init := rs[..|rs| - 1];
      var r := rs[|rs| - 1];
      PlanRenderersValid(p, assetPath, textures, init);
      PlanTexturesValid(PlanRenderers(p, assetPath, textures, init), assetPath, r, NormalMap(textures, r), textures);
      assert rs == init + [r];
    }
  }

  /** Some processed model has a renderer and a texture of its listing that gets a material. */
  ghost predicate AnyMatch(listing: string -> seq<Texture>, os: seq<SelectedObject>) {
    exists o, r, t :: o in os && Processed(o) && r in o.renderers &&
      t in listing(TexturesPath(o.assetPath)) && GetsMaterial(t, r)
  }

  lemma {:induction false} PlanObjectsValid(p: Plan, listing: string -> seq<Texture>, os: seq<SelectedObject>)
    ensures PlanObjects(p, listing, os).validMaterial <==> p.validMaterial || AnyMatch(listing, os)
  {
    if |os| > 0 {
      var init := os[..|os| - 1];
      var o := os[|os| - 1];
      PlanObjectsValid(p, listing, init);
      assert os == init + [o];
      if Processed(o) {
        PlanRenderersValid(PlanObjects(p, listing, init), o.assetPath,
                           listing(TexturesPath(o.assetPath)), o.renderers);
      }
    }
  }

  /** The dialog is shown exactly when no texture matched any renderer of any
      processed model, whether or not its material already existed. */
  lemma DialogIffNoMatch(selection: seq<SelectedObject>, listing: string -> seq<Texture>, existing: set<string>)
    ensures !PlanObjects(Plan(existing, [], false), listing, selection).validMaterial <==>
      !AnyMatch(listing, selection)
  {
    PlanObjectsValid(Plan(existing, [], false), listing, selection);
  }

  // ----- paths -----

  /** A material this command creates for a texture named without '/' or '.' lies
      under a generated-materials directory, and the element the database command
      makes from it is named after the lower-cased texture name. The database pairs
      it with a bundle exactly when its file name starts with the bundle's stem. */
  lemma GeneratedMaterialElement(assetPath: string, t: Texture, bundle: string)
    requires '/' !in t.name && '.' !in t.name
    ensures Contains(MaterialPath(assetPath, t), GeneratedDir)
    ensures FileName(MaterialPath(assetPath, t)) == Lower(t.name) + ".mat"
    ensures ElementFor(MaterialPath(assetPath, t), bundle).0 == Lower(t.name)
    ensures Matches(MaterialPath(assetPath, t), bundle) <==>
      StartsWith(Lower(t.name) + ".mat", BundleStem(bundle))
  {
    var m, lower := MaterialsPath(assetPath), Lower(t.name);
    var name := lower + ".mat";
    LowerKeepsChar(t.name, '/');
    LowerKeepsChar(t.name, '.');
    assert '/' !in name by {
      assert name[..|lower|] == lower;
      assert name[|lower|..] == ".mat";
    }
    AppendFour(m, "/", lower, ".mat");
    FileNameInDir(m + "/", name);
    ContainsAppendRight(m, "/" + name, GeneratedDir);
    RemoveAllAppended(lower, ".mat");
  }
}
