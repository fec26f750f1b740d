/** CharacterGenerator: one character being configured out of the catalog, the
    downloads its configuration needs, and the assembly of the configured character
    on a character base. */
module Generator {
  import opened Seqs
  import opened Text
  import opened Outcomes
  import opened Assets
  import opened Fetch
  import opened Elements
  import opened Catalog
  import opened Navigation
  import opened Progress
  import opened Compose
  import opened ConfigCodec

  // ----- random configurations -----

  /** The draws of Random.Range for a character's categories: one per category, each
      below that category's number of elements. */
  ghost predicate PicksFit(g: seq<Group>, picks: seq<nat>) {
    |picks| == |g| && forall i :: 0 <= i < |g| ==> picks[i] < |g[i].1|
  }

  /** The configuration PrepareRandomConfig builds: every category of the character,
      in order, with the element at its drawn position. */
  function Picked(g: seq<Group>, picks: seq<nat>): Config
    requires PicksFit(g, picks)
  {
    if |g| == 0 then []
    else
      var n := |g| - 1;
      assert PicksFit(g[..n], picks[..n]);
      Picked(g[..n], picks[..n]) + [(g[n].0, g[n].1[picks[n]])]
  }

  /** One entry per category, in the category order, holding the drawn element. */
  lemma {:induction false} PickedEntries(g: seq<Group>, picks: seq<nat>)
    requires PicksFit(g, picks)
    ensures |Picked(g, picks)| == |g|
    ensures Keys(Picked(g, picks)) == Keys(g)
    ensures forall i :: 0 <= i < |g| ==> Picked(g, picks)[i].1 == g[i].1[picks[i]]
  {
    if |g| > 0 {
      var n := |g| - 1;
      PickedEntries(g[..n], picks[..n]);
      assert Keys(Picked(g, picks)) == Keys(Picked(g[..n], picks[..n])) + [g[n].0];
      assert Keys(g) == Keys(g[..n]) + [g[n].0];
    }
  }

  /** The loop of PrepareRandomConfig adds one category per iteration. */
  lemma PickedSnoc(g: seq<Group>, picks: seq<nat>, i: nat)
    requires PicksFit(g, picks) && i < |g|
    ensures PicksFit(g[..i], picks[..i]) && PicksFit(g[..i + 1], picks[..i + 1])
    ensures Picked(g[..i + 1], picks[..i + 1]) == Picked(g[..i], picks[..i]) + [(g[i].0, g[i].1[picks[i]])]
  {
    assert g[..i + 1][..i] == g[..i] && picks[..i + 1][..i] == picks[..i];
  }

  /** The loop of PrepareRandomConfig: one entry per category, in order, with the
      element at the drawn position. */
  method Draw(g: seq<Group>, picks: seq<nat>) returns (config: Config)
    requires PicksFit(g, picks)
    ensures config == Picked(g, picks)
  {
    config := [];
    var i := 0;
    while i < |g|
      invariant 0 <= i <= |g|
      invariant PicksFit(g[..i], picks[..i]) && config == Picked(g[..i], picks[..i])
    {
      PickedSnoc(g, picks, i);
      config := config + [(g[i].0, g[i].1[picks[i]])];
      i := i + 1;
    }
    assert g[..i] == g && picks[..i] == picks;
  }

  /** A random configuration of a catalogued character is a valid configuration that
      selects every category of the character. */
  lemma PickedValid(t: Table, c: string, picks: seq<nat>)
    requires WellFormed(t) && HasCharacter(t, c)
    requires PicksFit(CategoriesOf(t, c), picks)
    ensures ConfigValid(t, c, Picked(CategoriesOf(t, c), picks))
    ensures Keys(Picked(CategoriesOf(t, c), picks)) == Keys(CategoriesOf(t, c))
  {
    var g := CategoriesOf(t, c);
    var config := Picked(g, picks);
    WellFormedAt(t, c);
    PickedEntries(g, picks);
    forall i | 0 <= i < |config|
      ensures HasCategory(t, c, config[i].0) && config[i].1 in ElementsOf(t, c, config[i].0)
    {
      assert Keys(config)[i] == g[i].0;
      IndexOfDistinct(Keys(g), i);
    }
  }

  // ----- restoring a saved configuration -----

  /** The search loop of PrepareConfig: the first element of the category with the
      name, or none. */
  method SearchByName(es: seq<CharacterElement>, name: string) returns (r: Option<CharacterElement>)
    ensures r == FindByName(es, name)
  {
    var i := 0;
    while i < |es|
      invariant 0 <= i <= |es|
      invariant forall k :: 0 <= k < i ==> es[k].name != name
    {
      if es[i].name == name {
        FindByNameFirst(es, name, i);
        return Some(es[i]);
      }
      i := i + 1;
    }
    return None;
  }

  /** The loop of PrepareConfig over the tokens after the character, two at a time. */
  method ReadPairs(t: Table, c: string, settings: seq<string>) returns (d: Decoded)
    requires |settings| >= 1
    ensures d == DecodeFrom(t, c, settings[1..], [])
  {
    var built: Config := [];
    var i := 1;
    while i < |settings|
      invariant 1 <= i <= |settings|
      invariant DecodeFrom(t, c, settings[i..], built) == DecodeFrom(t, c, settings[1..], [])
    {
      if i + 1 == |settings| {
        return Decoded(built, Threw(IndexOutOfRange));
      }
      var category := settings[i];
      var elementName := settings[i + 1];
      if !HasCharacter(t, c) || !HasCategory(t, c, category) {
        return Decoded(built, Threw(KeyNotFound));
      }
      var element := SearchByName(ElementsOf(t, c, category), elementName);
      if element.None? {
        return Decoded(built, Threw(ElementNotFound(elementName)));
      }
      if category in Keys(built) {
        return Decoded(built, Threw(DuplicateKey));
      }
      assert settings[i..][2..] == settings[i + 2..];
      built := built + [(category, element.value)];
      i := i + 2;
    }
    assert settings[i..] == [];
    return Decoded(built, Completed);
  }

  // ----- changing one element -----

  /** Replacing the element of a selected category by another element of that
      category keeps the configuration valid. */
  lemma PutValid(t: Table, c: string, config: Config, k: string, e: CharacterElement)
    requires ConfigValid(t, c, config) && k in Keys(config) && e in ElementsOf(t, c, k)
    ensures ConfigValid(t, c, Put(config, k, e))
    ensures Keys(Put(config, k, e)) == Keys(config)
  {
    var r := Put(config, k, e);
    forall i | 0 <= i < |r|
      ensures HasCategory(t, c, r[i].0) && r[i].1 in ElementsOf(t, c, r[i].0)
    {
      assert Keys(r)[i] == Keys(config)[i];
      if config[i].0 == k {
        IndexOfDistinct(Keys(config), i);
        assert KeyIndex(r, k) == i;
      }
    }
  }

  /** With the elements of a category distinct, changing its element forwards and
      then backwards (or backwards then forwards) gives back the configuration. */
  lemma ChangeElementThereAndBack(es: seq<CharacterElement>, config: Config, k: string, next: bool)
    requires Distinct(es) && KeyIndex(config, k) >= 0 && config[KeyIndex(config, k)].1 in es
    ensures var x := config[KeyIndex(config, k)].1;
      && Step(es, x, next).Some?
      && var once := Put(config, k, Step(es, x, next).value);
      && KeyIndex(once, k) == KeyIndex(config, k)
      && Step(es, once[KeyIndex(once, k)].1, !next).Some?
      && Put(once, k, Step(es, once[KeyIndex(once, k)].1, !next).value) == config
  {
    var i := KeyIndex(config, k);
    var x := config[i].1;
    StepThereAndBack(es, x, next);
    var y := Step(es, x, next).value;
    var once := Put(config, k, y);
    assert once == config[i := (k, y)];
    KeyIndexUpdate(config, i, y, k);
    var back := Put(once, k, x);
    assert back == once[i := (k, x)];
    assert back == config;
  }

  // ----- download progress -----

  /** Every element of the configuration has a WWW in the cache. */
  ghost predicate Fetched(m: map<string, Handle>, config: Config) {
    forall i :: 0 <= i < |config| ==> config[i].1.bundleName in m
  }

  /** The bundle file names a configuration needs. */
  ghost function BundlesOf(config: Config): set<string> {
    set i | 0 <= i < |config| :: config[i].1.bundleName
  }

  /** The progress of each element's WWW, in configuration order. */
  ghost function Progresses(m: map<string, Handle>, config: Config): (ps: seq<real>)
    reads m.Values
    requires Fetched(m, config)
    ensures |ps| == |config|
  {
    if |config| == 0 then []
    else
      var n := |config| - 1;
      assert Fetched(m, config[..n]);
      Progresses(m, config[..n]) + [m[config[n].1.bundleName].progress]
  }

  lemma FetchedSnoc(m: map<string, Handle>, m': map<string, Handle>, config: Config, i: nat)
    requires i < |config| && Fetched(m, config[..i])
    requires forall k :: k in m ==> k in m'
    requires config[i].1.bundleName in m'
    ensures Fetched(m', config[..i + 1])
  {
  }

  lemma ProgressesSnoc(m: map<string, Handle>, config: Config, i: nat)
    requires i < |config| && Fetched(m, config[..i + 1])
    ensures Fetched(m, config[..i])
    ensures Progresses(m, config[..i + 1]) ==
      Progresses(m, config[..i]) + [m[config[i].1.bundleName].progress]
  {
    assert config[..i + 1][..i] == config[..i];
  }

  /** Adding WWWs for other bundles does not change the progress list. */
  lemma {:induction false} ProgressesFrame(m: map<string, Handle>, m': map<string, Handle>, config: Config)
    requires Fetched(m, config)
    requires forall k :: k in m ==> k in m' && m'[k] == m[k]
    ensures Fetched(m', config) && Progresses(m', config) == Progresses(m, config)
  {
    if |config| > 0 {
      var n := |config| - 1;
      assert Fetched(m, config[..n]);
      ProgressesFrame(m, m', config[..n]);
    }
  }

  /** Each WWW reports a progress in [0, 1], so each entry of the list is in [0, 1]. */
  lemma {:induction false} ProgressesBounds(m: map<string, Handle>, config: Config)
    requires Fetched(m, config)
    requires forall k :: k in m ==> 0.0 <= m[k].progress <= 1.0
    ensures forall i :: 0 <= i < |config| ==> 0.0 <= Progresses(m, config)[i] <= 1.0
  {
    if |config| > 0 {
      var n := |config| - 1;
      assert Fetched(m, config[..n]);
      ProgressesBounds(m, config[..n]);
    }
  }

  /** The downloads of a configuration and its character base add up to at most one
      per bundle: the total runs from 0 to the number of elements plus one. */
  lemma DownloadedBounds(m: map<string, Handle>, config: Config, base: Handle)
    requires Fetched(m, config)
    requires forall k :: k in m ==> 0.0 <= m[k].progress <= 1.0
    requires 0.0 <= base.progress <= 1.0
    ensures 0.0 <= base.progress + Sum(Progresses(m, config)) <= |config| as real + 1.0
  {
    ProgressesBounds(m, config);
    SumBounds(Progresses(m, config));
  }

  /** The WWW of the character base and of every element of the configuration exist. */
  ghost predicate AllFetched(bases: map<string, Handle>, bundles: map<string, Handle>, c: string, config: Config) {
    c in bases && Fetched(bundles, config)
  }

  /** How much of the character base and of the configuration's bundles is downloaded. */
  ghost function Downloaded(bases: map<string, Handle>, bundles: map<string, Handle>, c: string, config: Config): real
    reads bases.Values, bundles.Values
    requires AllFetched(bases, bundles, c, config)
  {
    bases[c].progress + Sum(Progresses(bundles, config))
  }

  /** The loop over the configuration's values that adds up the progress of each
      element's WWW, creating the WWWs that do not exist yet. */
  method SumProgress(bundles: HandleCache, config: Config) returns (total: real)
    requires bundles.Valid()
    modifies bundles
    ensures bundles.Valid()
    ensures Fetched(bundles.wwws, config) && total == Sum(Progresses(bundles.wwws, config))
    ensures Extends(old(bundles.wwws), bundles.wwws, BundlesOf(config))
  {
    total := 0.0;
    var i := 0;
    while i < |config|
      invariant 0 <= i <= |config|
      invariant bundles.Valid() && Extends(old(bundles.wwws), bundles.wwws, BundlesOf(config))
      invariant Fetched(bundles.wwws, config[..i])
      invariant total == Sum(Progresses(bundles.wwws, config[..i]))
    {
      var e := config[i].1;
      ghost var before := bundles.wwws;
      ghost var ps := Progresses(bundles.wwws, config[..i]);
      var w := e.WWW(bundles);
      assert e.bundleName in BundlesOf(config);
      assert Fetched(bundles.wwws, config[..i + 1]) &&
        Progresses(bundles.wwws, config[..i + 1]) == ps + [w.progress] by {
        assert Progresses(before, config[..i]) == ps;
        FetchedSnoc(before, bundles.wwws, config, i);
        ProgressesFrame(before, bundles.wwws, config[..i]);
        ProgressesSnoc(bundles.wwws, config, i);
      }
      SumSnoc(ps, w.progress);
      total := total + w.progress;
      i := i + 1;
    }
    assert config[..i] == config;
  }

  /** What PrepareRandomConfig(character) leaves behind: the lower-cased character
      and, when the catalog knows it, the drawn configuration; otherwise an empty
      configuration and KeyNotFound from the dictionary lookup. */
  ghost predicate RandomConfigOf(t: Table, character: string, picks: seq<nat>, c: string, config: Config, status: Status) {
    && c == Lower(character)
    && (HasCharacter(t, c) ==>
          PicksFit(CategoriesOf(t, c), picks) && status == Completed && config == Picked(CategoriesOf(t, c), picks))
    && (!HasCharacter(t, c) ==> status == Threw(KeyNotFound) && config == [])
  }

  // ----- readiness -----

  /** The selected elements, in configuration order. */
  function Selected(config: Config): (es: seq<CharacterElement>)
    ensures |es| == |config| && forall i :: 0 <= i < |config| ==> es[i] == config[i].1
  {
    seq(|config|, i requires 0 <= i < |config| => config[i].1)
  }

  /** The selected elements. */
  ghost function ElementSet(config: Config): set<CharacterElement> {
    set i | 0 <= i < |config| :: config[i].1
  }

  /** The selected elements and the requests they have started. */
  ghost function Footprint(config: Config): set<object>
    reads ElementSet(config)
  {
    (set i | 0 <= i < |config| :: config[i].1 as object)
    + (set i | 0 <= i < |config| && config[i].1.gameObjectRequest != null :: config[i].1.gameObjectRequest as object)
    + (set i | 0 <= i < |config| && config[i].1.materialRequest != null :: config[i].1.materialRequest as object)
    + (set i | 0 <= i < |config| && config[i].1.boneNameRequest != null :: config[i].1.boneNameRequest as object)
  }

  /** Every selected element has its bundle downloaded and its three loads finished. */
  ghost predicate AllLoaded(config: Config, wwws: HandleCache)
    reads wwws, wwws.wwws.Values, Footprint(config)
  {
    forall i :: 0 <= i < |config| ==> config[i].1.Loaded(wwws)
  }

  /** The started loads of every selected element are still the same loads. */
  twostate predicate RequestsKept(config: Config)
    reads ElementSet(config)
  {
    forall e :: e in ElementSet(config) ==>
      && Kept(old(e.gameObjectRequest), e.gameObjectRequest)
      && Kept(old(e.materialRequest), e.materialRequest)
      && Kept(old(e.boneNameRequest), e.boneNameRequest)
  }

  /** The second half of ConfigReady: IsLoaded on each selected element in turn,
      stopping at the first that is not loaded (`stop`, or |config| when all are).
      Elements after it that were not polled on the way keep their loads unstarted
      or as they were. */
  method PollElements(config: Config, bundles: HandleCache) returns (ready: bool, ghost stop: nat)
    requires bundles.Valid()
    modifies bundles, ElementSet(config)
    ensures bundles.Valid()
    ensures ready <==> AllLoaded(config, bundles)
    ensures stop <= |config| && (ready <==> stop == |config|)
    ensures forall j :: 0 <= j < stop ==> config[j].1.Loaded(bundles)
    ensures stop < |config| ==> !config[stop].1.Loaded(bundles)
    ensures RequestsKept(config)
    ensures stop < |config| ==>
      forall j :: stop < j < |config| && config[j].1 !in Selected(config[..stop + 1]) ==> unchanged(config[j].1)
    ensures Extends(old(bundles.wwws), bundles.wwws, BundlesOf(config))
  {
    var i := 0;
    while i < |config|
      invariant 0 <= i <= |config|
      invariant bundles.Valid() && Extends(old(bundles.wwws), bundles.wwws, BundlesOf(config))
      invariant forall j :: 0 <= j < i ==> config[j].1.Loaded(bundles)
      invariant forall x :: x in ElementSet(config) ==> Kept(old(x.gameObjectRequest), x.gameObjectRequest)
      invariant forall x :: x in ElementSet(config) ==> Kept(old(x.materialRequest), x.materialRequest)
      invariant forall x :: x in ElementSet(config) ==> Kept(old(x.boneNameRequest), x.boneNameRequest)
      invariant forall j :: i <= j < |config| && config[j].1 !in Selected(config[..i]) ==> unchanged(config[j].1)
    {
      var e := config[i].1;
      assert e.bundleName in BundlesOf(config);
      assert Selected(config[..i + 1]) == Selected(config[..i]) + [e] by {
        assert config[..i + 1] == config[..i] + [config[i]];
      }
      var loaded := e.Poll(bundles);
      if !loaded {
        return false, i;
      }
      i := i + 1;
    }
    return true, i;
  }

  // ----- composing -----

  /** The three loads of an element have finished with the assets the composer uses. */
  ghost predicate Composable(e: CharacterElement)
    reads e, e.gameObjectRequest, e.materialRequest, e.boneNameRequest
  {
    && e.gameObjectRequest != null && e.gameObjectRequest.asset.RendererPrefab?
    && e.materialRequest != null && e.materialRequest.asset.MaterialAsset?
    && e.boneNameRequest != null && e.boneNameRequest.asset.StringHolder?
  }

  ghost predicate AllComposable(config: Config)
    reads Footprint(config)
  {
    forall i :: 0 <= i < |config| ==> Composable(config[i].1)
  }

  /** What one element brings to Generate: the shared mesh of its renderer, the
      renderer's material slots with the element's material first, and its bone names. */
  ghost function FragmentOf(e: CharacterElement): Fragment
    reads e, e.gameObjectRequest, e.materialRequest, e.boneNameRequest
    requires Composable(e)
  {
    var prefab := e.gameObjectRequest.asset;
    Fragment(prefab.mesh, WithFirstMaterial(prefab.materials, e.materialRequest.asset.material),
             e.boneNameRequest.asset.content)
  }

  /** The fragments of the selected elements, in configuration order. */
  ghost function Fragments(config: Config): (fs: seq<Fragment>)
    reads Footprint(config)
    requires AllComposable(config)
    ensures |fs| == |config|
  {
    seq(|config|, i requires 0 <= i < |config| && Composable(config[i].1) reads Footprint(config)
                    => FragmentOf(config[i].1))
  }

  /** The inner loop of Generate over submeshes: one combine entry per submesh. */
  method SubMeshEntries(m: Mesh) returns (cs: seq<CombineInstance>)
    ensures cs == SubMeshes(m)
  {
    cs := [];
    var sub := 0;
    while sub < m.subMeshCount
      invariant 0 <= sub <= m.subMeshCount
      invariant cs == SubMeshes(m)[..sub]
    {
      cs := cs + [CombineInstance(m, sub)];
      sub := sub + 1;
    }
  }

  /** The innermost loop of Generate: the first transform with the bone's name. */
  method FindTransform(ts: seq<Transform>, name: string) returns (r: Option<Transform>)
    ensures r == FirstNamed(ts, name)
  {
    var i := 0;
    while i < |ts|
      invariant 0 <= i <= |ts|
      invariant FirstNamed(ts, name) == FirstNamed(ts[i..], name)
    {
      if ts[i].name == name {
        return Some(ts[i]);
      }
      assert ts[i..][1..] == ts[i + 1..];
      i := i + 1;
    }
    return None;
  }

  /** The loop of Generate over one element's bone names. */
  method CollectBones(ts: seq<Transform>, names: seq<string>) returns (bones: seq<Transform>)
    ensures bones == ResolveBones(ts, names)
  {
    bones := [];
    var j := 0;
    while j < |names|
      invariant 0 <= j <= |names|
      invariant bones == ResolveBones(ts, names[..j])
    {
      var found := FindTransform(ts, names[j]);
      ResolveBonesSnoc(ts, names, j);
      if found.Some? {
        bones := bones + [found.value];
      }
      j := j + 1;
    }
    assert names[..j] == names;
  }

  /** One iteration of Generate's loop over the selected elements: the element's
      renderer is instantiated, and its submeshes, material slots and bones found. */
  method Contribute(e: CharacterElement, ts: seq<Transform>)
    returns (combine: seq<CombineInstance>, materials: seq<MaterialId>, bones: seq<Transform>)
    requires Composable(e)
    ensures combine == SubMeshes(FragmentOf(e).mesh)
    ensures materials == FragmentOf(e).materials
    ensures bones == ResolveBones(ts, FragmentOf(e).boneNames)
  {
    var smr := e.GetSkinnedMeshRenderer();
    materials := smr.materials;
    combine := SubMeshEntries(smr.sharedMesh);
    bones := CollectBones(ts, e.GetBoneNames());
  }

  /** The loop of Generate over the selected elements: the lists handed to the
      combined renderer. */
  method Assemble(config: Config, ts: seq<Transform>)
    returns (combine: seq<CombineInstance>, materials: seq<MaterialId>, bones: seq<Transform>)
    requires AllComposable(config)
    ensures combine == CombineEntries(Fragments(config))
    ensures materials == Materials(Fragments(config))
    ensures bones == Bones(ts, Fragments(config))
  {
    ghost var fs := Fragments(config);
    combine, materials, bones := [], [], [];
    var i := 0;
    while i < |config|
      invariant 0 <= i <= |config|
      invariant AllComposable(config) && Fragments(config) == fs
      invariant combine == CombineEntries(fs[..i])
      invariant materials == Materials(fs[..i])
      invariant bones == Bones(ts, fs[..i])
    {
      var cs, ms, bs := Contribute(config[i].1, ts);
      assert fs[..i + 1] == fs[..i] + [fs[i]];
      CombineEntriesSnoc(fs[..i], fs[i]);
      MaterialsSnoc(fs[..i], fs[i]);
      BonesSnoc(ts, fs[..i], fs[i]);
      combine, materials, bones := combine + cs, materials + ms, bones + bs;
      i := i + 1;
    }
    assert fs[..i] == fs;
  }

  /** A character's root object: its hierarchy (GetComponentsInChildren<Transform>)
      and what its SkinnedMeshRenderer was given: the entries its shared mesh was
      combined from, its bones and its materials. */
  class CharacterRoot {
    var name: string
    const transforms: seq<Transform>
    var combined: seq<CombineInstance>
    var bones: seq<Transform>
    var materials: seq<MaterialId>

    constructor (name: string, transforms: seq<Transform>)
      ensures this.name == name && this.transforms == transforms
      ensures combined == [] && bones == [] && materials == []
    {
      this.name := name;
      this.transforms := transforms;
      combined, bones, materials := [], [], [];
    }

    /** Hands the combined mesh, its bones and its materials to the root's renderer. */
    method Attach(combined: seq<CombineInstance>, bones: seq<Transform>, materials: seq<MaterialId>)
      modifies this
      ensures name == old(name)
      ensures this.combined == combined && this.bones == bones && this.materials == materials
    {
      this.combined, this.bones, this.materials := combined, bones, materials;
    }
  }

  /** The WWWs and requests shared by every generator: the bundle WWWs of the elements
      (keyed by bundle file name), the character-base WWWs (keyed by character) and
      the loads of the character bases out of them. */
  ghost predicate Shared(db: Database, bundles: HandleCache, bases: HandleCache, baseRequests: RequestCache)
    reads db, bundles, bases, baseRequests
  {
    && db.Valid() && db.sortedElements.Some?
    && bundles != bases
    && bundles.Valid() && bundles.baseUrl == db.baseUrl && bundles.suffix == ""
    && bases.Valid() && bases.baseUrl == db.baseUrl && bases.suffix == "_characterbase.assetbundle"
    && forall k :: k in baseRequests.requests ==>
         k in bases.wwws && LoadOf(baseRequests.requests[k], bases.wwws[k], "characterbase", GameObjectKind)
  }

  class CharacterGenerator {
    const db: Database
    const bundles: HandleCache
    const bases: HandleCache
    const baseRequests: RequestCache
    var currentCharacter: string
    var currentConfiguration: Config
    var assetbundlesAlreadyDownloaded: real

    ghost predicate Valid()
      reads this`currentCharacter, this`currentConfiguration, db, bundles, bases, baseRequests
    {
      && Shared(db, bundles, bases, baseRequests)
      && ConfigValid(db.sortedElements.value, currentCharacter, currentConfiguration)
    }

    /** sortedElements, once the database is parsed. */
    function SortedElements(): Table
      reads db
    {
      if db.sortedElements.Some? then db.sortedElements.value else []
    }

    /** The baseline was taken for the current configuration. */
    ghost predicate Baselined()
      reads this, bases, bundles, bases.wwws.Values, bundles.wwws.Values
    {
      && AllFetched(bases.wwws, bundles.wwws, currentCharacter, currentConfiguration)
      && assetbundlesAlreadyDownloaded ==
           Downloaded(bases.wwws, bundles.wwws, currentCharacter, currentConfiguration)
    }

    /** The private constructor: a generator exists only once the catalog is ready. */
    constructor (db: Database, bundles: HandleCache, bases: HandleCache, baseRequests: RequestCache)
      requires Shared(db, bundles, bases, baseRequests)
      ensures Valid()
      ensures this.db == db && this.bundles == bundles && this.bases == bases
      ensures this.baseRequests == baseRequests
      ensures currentCharacter == "" && currentConfiguration == [] && assetbundlesAlreadyDownloaded == 0.0
    {
      this.db := db;
      this.bundles := bundles;
      this.bases := bases;
      this.baseRequests := baseRequests;
      currentCharacter := "";
      currentConfiguration := [];
      assetbundlesAlreadyDownloaded := 0.0;
    }

    /** CurrentCharacterBase: the WWW of the current character's base bundle, created
        on first use. */
    method CurrentCharacterBase() returns (h: Handle)
      requires Valid()
      modifies bases
      ensures Valid()
      ensures currentCharacter in bases.wwws && h == bases.wwws[currentCharacter]
      ensures Extends(old(bases.wwws), bases.wwws, {currentCharacter})
    {
      h := bases.GetOrCreate(currentCharacter);
    }

    /** The progress of the character base plus that of every element's WWW (creating
        any WWW that does not exist yet); shared by UpdateAssetbundlesAlreadyDownloaded
        and CurrentConfigProgress. */
    method TotalProgress() returns (total: real)
      requires Valid()
      modifies bases, bundles
      ensures Valid()
      ensures AllFetched(bases.wwws, bundles.wwws, currentCharacter, currentConfiguration)
      ensures total == Downloaded(bases.wwws, bundles.wwws, currentCharacter, currentConfiguration)
      ensures Extends(old(bases.wwws), bases.wwws, {currentCharacter}) && Extends(old(bundles.wwws), bundles.wwws, BundlesOf(currentConfiguration))
    {
      var h := CurrentCharacterBase();
      var elements := SumProgress(bundles, currentConfiguration);
      total := h.progress + elements;
    }

    /** UpdateAssetbundlesAlreadyDownloaded: takes the baseline for the progress of
        the current configuration. */
    method UpdateBaseline()
      requires Valid()
      modifies this, bases, bundles
      ensures Valid() && Baselined()
      ensures currentCharacter == old(currentCharacter) && currentConfiguration == old(currentConfiguration)
      ensures Extends(old(bases.wwws), bases.wwws, {currentCharacter}) && Extends(old(bundles.wwws), bundles.wwws, BundlesOf(currentConfiguration))
    {
      var total := TotalProgress();
      SetBaseline(total);
    }

    /** The assignment that ends UpdateAssetbundlesAlreadyDownloaded. */
    method SetBaseline(total: real)
      requires Valid()
      requires AllFetched(bases.wwws, bundles.wwws, currentCharacter, currentConfiguration)
      requires total == Downloaded(bases.wwws, bundles.wwws, currentCharacter, currentConfiguration)
      modifies this
      ensures Valid() && Baselined()
      ensures currentCharacter == old(currentCharacter) && currentConfiguration == old(currentConfiguration)
    {
      assetbundlesAlreadyDownloaded := total;
    }

    /** CurrentConfigProgress: how far the downloads have come since the baseline, as
        a fraction of what was left then; exactly 1 when nothing was left, without
        creating any WWW. */
    method CurrentConfigProgress() returns (p: real)
      requires Valid()
      modifies bases, bundles
      ensures Valid()
      ensures var toDownload := |currentConfiguration| as real + 1.0 - assetbundlesAlreadyDownloaded;
        && (toDownload == 0.0 ==> p == 1.0 && bases.wwws == old(bases.wwws) && bundles.wwws == old(bundles.wwws))
        && (toDownload != 0.0 ==>
              && AllFetched(bases.wwws, bundles.wwws, currentCharacter, currentConfiguration)
              && p == Ratio(|currentConfiguration|, assetbundlesAlreadyDownloaded,
                            Downloaded(bases.wwws, bundles.wwws, currentCharacter, currentConfiguration)))
      ensures Extends(old(bases.wwws), bases.wwws, {currentCharacter}) && Extends(old(bundles.wwws), bundles.wwws, BundlesOf(currentConfiguration))
    {
      var toDownload := |currentConfiguration| as real + 1.0 - assetbundlesAlreadyDownloaded;
      if toDownload == 0.0 {
        return 1.0;
      }
      var progress := TotalProgress();
      p := Ratio(|currentConfiguration|, assetbundlesAlreadyDownloaded, progress);
    }

    /** GetConfig: the string form of the current configuration. */
    method GetConfig() returns (s: string)
      ensures s == Encode(currentCharacter, currentConfiguration)
    {
      s := currentCharacter;
      var config := currentConfiguration;
      var i := 0;
      while i < |config|
        invariant 0 <= i <= |config|
        invariant s == Encode(currentCharacter, config[..i])
      {
        var (k, e) := config[i];
        assert config[..i + 1][..i] == config[..i];
        s := s + "|" + k + "|" + e.name;
        i := i + 1;
      }
      assert config[..i] == config;
    }

    /** The assignments of currentCharacter and currentConfiguration. */
    method Select(character: string, config: Config)
      requires Shared(db, bundles, bases, baseRequests)
      requires ConfigValid(db.sortedElements.value, character, config)
      modifies this
      ensures Valid() && currentCharacter == character && currentConfiguration == config
      ensures assetbundlesAlreadyDownloaded == old(assetbundlesAlreadyDownloaded)
    {
      currentCharacter := character;
      currentConfiguration := config;
    }

    /** PrepareRandomConfig(character): clears the configuration, selects the
        lower-cased character and, when the catalog knows it, draws one element per
        category (picks[i] models Random.Range for category i) and takes the baseline. */
    method PrepareRandomConfig(character: string, picks: seq<nat>) returns (status: Status)
      requires Valid()
      requires HasCharacter(SortedElements(), Lower(character)) ==>
        PicksFit(CategoriesOf(SortedElements(), Lower(character)), picks)
      modifies this, bases, bundles
      ensures Valid()
      ensures RandomConfigOf(SortedElements(), character, picks, currentCharacter, currentConfiguration, status)
      ensures status == Completed ==> Baselined()
      ensures status != Completed ==>
        && assetbundlesAlreadyDownloaded == old(assetbundlesAlreadyDownloaded)
        && bases.wwws == old(bases.wwws) && bundles.wwws == old(bundles.wwws)
      ensures Extends(old(bases.wwws), bases.wwws, {currentCharacter})
      ensures Extends(old(bundles.wwws), bundles.wwws, BundlesOf(currentConfiguration))
    {
      var c := Lower(character);
      Select(c, []);
      var t := SortedElements();
      if !HasCharacter(t, c) {
        return Threw(KeyNotFound);
      }
      var config := Draw(CategoriesOf(t, c), picks);
      PickedValid(t, c, picks);
      Select(c, config);
      UpdateBaseline();
      status := Completed;
    }

    /** PrepareRandomConfig(): a random character (pick models Random.Range over
        availableCharacters) with a random configuration. Indexing an empty list throws
        ArgumentOutOfRange before anything changes. */
    method PrepareRandomCharacter(pick: nat, picks: seq<nat>) returns (status: Status)
      requires Valid()
      requires |db.availableCharacters| > 0 ==> pick < |db.availableCharacters|
      requires |db.availableCharacters| > 0 ==>
        var c := Lower(db.availableCharacters[pick]);
        HasCharacter(SortedElements(), c) ==> PicksFit(CategoriesOf(SortedElements(), c), picks)
      modifies this, bases, bundles
      ensures Valid()
      ensures |db.availableCharacters| == 0 ==>
        && status == Threw(ArgumentOutOfRange)
        && currentCharacter == old(currentCharacter) && currentConfiguration == old(currentConfiguration)
        && assetbundlesAlreadyDownloaded == old(assetbundlesAlreadyDownloaded)
        && bases.wwws == old(bases.wwws) && bundles.wwws == old(bundles.wwws)
      ensures |db.availableCharacters| > 0 ==>
        && RandomConfigOf(SortedElements(), db.availableCharacters[pick], picks,
                          currentCharacter, currentConfiguration, status)
        && (status == Completed ==> Baselined())
      ensures Extends(old(bases.wwws), bases.wwws, {currentCharacter})
      ensures Extends(old(bundles.wwws), bundles.wwws, BundlesOf(currentConfiguration))
    {
      if |db.availableCharacters| == 0 {
        return Threw(ArgumentOutOfRange);
      }
      status := PrepareRandomConfig(db.availableCharacters[pick], picks);
    }

    /** ChangeCharacter: a random configuration for the character after (or before)
        the current one in availableCharacters, wrapping around. When the current
        character is not listed, the configuration is cleared and ToLower on the
        missing name throws. */
    method ChangeCharacter(next: bool, picks: seq<nat>) returns (status: Status)
      requires Valid()
      requires var s := Step(db.availableCharacters, currentCharacter, next);
        s.Some? && HasCharacter(SortedElements(), Lower(s.value)) ==>
          PicksFit(CategoriesOf(SortedElements(), Lower(s.value)), picks)
      modifies this, bases, bundles
      ensures Valid()
      ensures var s := Step(db.availableCharacters, old(currentCharacter), next);
        && (s.None? ==>
              && status == Threw(NullReference)
              && currentCharacter == old(currentCharacter) && currentConfiguration == []
              && assetbundlesAlreadyDownloaded == old(assetbundlesAlreadyDownloaded)
              && bases.wwws == old(bases.wwws) && bundles.wwws == old(bundles.wwws))
        && (s.Some? ==>
              && RandomConfigOf(SortedElements(), s.value, picks, currentCharacter, currentConfiguration, status)
              && (status == Completed ==> Baselined()))
      ensures Extends(old(bases.wwws), bases.wwws, {currentCharacter})
      ensures Extends(old(bundles.wwws), bundles.wwws, BundlesOf(currentConfiguration))
    {
      var character := FindAdjacent(db.availableCharacters, currentCharacter, next);
      if character.None? {
        Select(currentCharacter, []);
        return Threw(NullReference);
      }
      status := PrepareRandomConfig(character.value, picks);
    }

    /** ChangeElement: moves one category of the configuration to the next (or
        previous) element of that category, wrapping around, and takes the baseline.
        The lookups throw when the category is unknown or not configured. */
    method ChangeElement(category: string, next: bool) returns (status: Status)
      requires Valid()
      modifies this, bases, bundles
      ensures Valid() && currentCharacter == old(currentCharacter)
      ensures var t := SortedElements();
        var config := old(currentConfiguration);
        if HasCategory(t, currentCharacter, category) && category in Keys(config) then
          var es := ElementsOf(t, currentCharacter, category);
          var x := config[KeyIndex(config, category)].1;
          && status == Completed
          && Step(es, x, next).Some?
          && currentConfiguration == Put(config, category, Step(es, x, next).value)
          && Baselined()
        else
          && status == Threw(KeyNotFound)
          && currentConfiguration == config
          && assetbundlesAlreadyDownloaded == old(assetbundlesAlreadyDownloaded)
          && bases.wwws == old(bases.wwws) && bundles.wwws == old(bundles.wwws)
      ensures Extends(old(bases.wwws), bases.wwws, {currentCharacter})
      ensures Extends(old(bundles.wwws), bundles.wwws, BundlesOf(currentConfiguration))
    {
      var t := SortedElements();
      var c := currentCharacter;
      var config := currentConfiguration;
      if !HasCategory(t, c, category) {
        return Threw(KeyNotFound);
      }
      var available := ElementsOf(t, c, category);
      var k := KeyIndex(config, category);
      if k < 0 {
        return Threw(KeyNotFound);
      }
      assert config[k].1 in available;
      var element := FindAdjacent(available, config[k].1, next);
      PutValid(t, c, config, category, element.value);
      Select(c, Put(config, category, element.value));
      UpdateBaseline();
      status := Completed;
    }

    /** PrepareConfig: restores a configuration saved by GetConfig. The string is
        lower-cased and split at '|'; the first token is the character and the rest
        are read in pairs. A failing pair throws, leaving the pairs read before it in
        the configuration and the baseline as it was. */
    method PrepareConfig(s: string) returns (status: Status)
      requires Valid()
      modifies this, bases, bundles
      ensures Valid()
      ensures (currentCharacter, Decoded(currentConfiguration, status)) == Decode(SortedElements(), s)
      ensures status == Completed ==> Baselined()
      ensures status != Completed ==>
        && assetbundlesAlreadyDownloaded == old(assetbundlesAlreadyDownloaded)
        && bases.wwws == old(bases.wwws) && bundles.wwws == old(bundles.wwws)
      ensures Extends(old(bases.wwws), bases.wwws, {currentCharacter})
      ensures Extends(old(bundles.wwws), bundles.wwws, BundlesOf(currentConfiguration))
    {
      var settings := Split(Lower(s), '|');
      var t := SortedElements();
      var c := settings[0];
      var d := ReadPairs(t, c, settings);
      DecodeValid(t, s);
      Select(c, d.config);
      if d.status != Completed {
        return d.status;
      }
      UpdateBaseline();
      status := Completed;
    }

    /** The character base is downloaded and its load has finished. */
    ghost predicate BaseLoaded()
      reads this`currentCharacter, bases, bases.wwws.Values, baseRequests, baseRequests.requests.Values
    {
      && currentCharacter in bases.wwws && bases.wwws[currentCharacter].isDone
      && currentCharacter in baseRequests.requests && baseRequests.requests[currentCharacter].isDone
    }

    /** The first half of ConfigReady: the character base is downloaded and its
        load, started here the first time, has finished. */
    method PollBase() returns (ready: bool)
      requires Valid()
      modifies bases, baseRequests
      ensures Valid()
      ensures ready <==> BaseLoaded()
      ensures currentCharacter in bases.wwws
      ensures !bases.wwws[currentCharacter].isDone ==> baseRequests.requests == old(baseRequests.requests)
      ensures currentCharacter in old(baseRequests.requests) ==> baseRequests.requests == old(baseRequests.requests)
      ensures Extends(old(bases.wwws), bases.wwws, {currentCharacter})
      ensures bundles.wwws == old(bundles.wwws) && unchanged(ElementSet(currentConfiguration))
    {
      var h := CurrentCharacterBase();
      if !h.isDone {
        return false;
      }
      var r := baseRequests.GetOrLoad(currentCharacter, h, "characterbase", GameObjectKind);
      ready := r.isDone;
    }

    /** ConfigReady: polls every download the configuration needs, starting the load
        of the character base once its bundle is in, and each element's loads once
        its bundle is in; true exactly when everything is loaded. */
    method ConfigReady() returns (ready: bool)
      requires Valid()
      modifies bases, baseRequests, bundles, ElementSet(currentConfiguration)
      ensures Valid()
      ensures ready <==> BaseLoaded() && AllLoaded(currentConfiguration, bundles)
      ensures currentCharacter in bases.wwws
      ensures !bases.wwws[currentCharacter].isDone ==> baseRequests.requests == old(baseRequests.requests)
      ensures currentCharacter in old(baseRequests.requests) ==> baseRequests.requests == old(baseRequests.requests)
      ensures !BaseLoaded() ==>
        bundles.wwws == old(bundles.wwws) && unchanged(ElementSet(currentConfiguration))
      ensures RequestsKept(currentConfiguration)
      ensures Extends(old(bases.wwws), bases.wwws, {currentCharacter})
      ensures Extends(old(bundles.wwws), bundles.wwws, BundlesOf(currentConfiguration))
    {
      ready := PollBase();
      if ready {
        ready := PollSelection();
      }
    }

    /** The second half of ConfigReady: every selected element is loaded. */
    method PollSelection() returns (ready: bool)
      requires Valid()
      modifies bundles, ElementSet(currentConfiguration)
      ensures Valid()
      ensures ready <==> AllLoaded(currentConfiguration, bundles)
      ensures RequestsKept(currentConfiguration)
      ensures Extends(old(bundles.wwws), bundles.wwws, BundlesOf(currentConfiguration))
      ensures bases.wwws == old(bases.wwws) && baseRequests.requests == old(baseRequests.requests)
      ensures BaseLoaded() == old(BaseLoaded())
    {
      ghost var stop;
      ready, stop := PollElements(currentConfiguration, bundles);
    }

    /** Generate(root): combines the selected elements onto a character base,
        recycling `root`. */
    method GenerateInto(root: CharacterRoot)
      requires AllComposable(currentConfiguration)
      modifies root
      ensures root.name == old(root.name)
      ensures root.combined == old(CombineEntries(Fragments(currentConfiguration)))
      ensures root.materials == old(Materials(Fragments(currentConfiguration)))
      ensures root.bones == old(Bones(root.transforms, Fragments(currentConfiguration)))
    {
      ghost var fs := Fragments(currentConfiguration);
      var combine, materials, bones := Assemble(currentConfiguration, root.transforms);
      assert Fragments(currentConfiguration) == fs;
      root.Attach(combine, bones, materials);
    }

    /** Generate(): a new character base instantiated from the loaded base prefab,
        named after the character, with the selected elements combined onto it.
        Without a started base load the dictionary lookup throws. */
    method Generate() returns (root: CharacterRoot?, status: Status)
      requires currentCharacter in baseRequests.requests ==>
        baseRequests.requests[currentCharacter].asset.BasePrefab?
      requires AllComposable(currentConfiguration)
      ensures currentCharacter !in baseRequests.requests ==> root == null && status == Threw(KeyNotFound)
      ensures currentCharacter in baseRequests.requests ==>
        && status == Completed && root != null && fresh(root)
        && root.name == currentCharacter
        && root.transforms == baseRequests.requests[currentCharacter].asset.transforms
        && root.combined == old(CombineEntries(Fragments(currentConfiguration)))
        && root.materials == old(Materials(Fragments(currentConfiguration)))
        && root.bones == Bones(root.transforms, old(Fragments(currentConfiguration)))
    {
      if currentCharacter !in baseRequests.requests {
        return null, Threw(KeyNotFound);
      }
      var prefab := baseRequests.requests[currentCharacter].asset;
      ghost var fs := Fragments(currentConfiguration);
      var r := new CharacterRoot(currentCharacter, prefab.transforms);
      assert Fragments(currentConfiguration) == fs;
      GenerateInto(r);
      return r, Completed;
    }
  }


  // ----- the static factories -----

  /** CreateWithConfig: a new generator holding the configuration saved in `s`. */
  method CreateWithConfig(db: Database, bundles: HandleCache, bases: HandleCache,
                          baseRequests: RequestCache, s: string)
    returns (gen: CharacterGenerator, status: Status)
    requires Shared(db, bundles, bases, baseRequests)
    modifies bases, bundles
    ensures fresh(gen) && gen.Valid()
    ensures gen.db == db && gen.bundles == bundles && gen.bases == bases && gen.baseRequests == baseRequests
    ensures (gen.currentCharacter, Decoded(gen.currentConfiguration, status)) ==
      Decode(db.sortedElements.value, s)
    ensures status == Completed ==> gen.Baselined()
  {
    gen := new CharacterGenerator(db, bundles, bases, baseRequests);
    status := gen.PrepareConfig(s);
  }

  /** CreateWithRandomConfig(character): a new generator holding a random
      configuration of `character`. */
  method CreateWithRandomConfigOf(db: Database, bundles: HandleCache, bases: HandleCache,
                                  baseRequests: RequestCache, character: string, picks: seq<nat>)
    returns (gen: CharacterGenerator, status: Status)
    requires Shared(db, bundles, bases, baseRequests)
    requires HasCharacter(db.sortedElements.value, Lower(character)) ==>
      PicksFit(CategoriesOf(db.sortedElements.value, Lower(character)), picks)
    modifies bases, bundles
    ensures fresh(gen) && gen.Valid()
    ensures gen.db == db && gen.bundles == bundles && gen.bases == bases && gen.baseRequests == baseRequests
    ensures RandomConfigOf(db.sortedElements.value, character, picks,
                           gen.currentCharacter, gen.currentConfiguration, status)
    ensures status == Completed ==> gen.Baselined()
  {
    gen := new CharacterGenerator(db, bundles, bases, baseRequests);
    status := gen.PrepareRandomConfig(character, picks);
  }

  /** CreateWithRandomConfig(): a new generator holding a random configuration of
      a random character. */
  method CreateWithRandomConfig(db: Database, bundles: HandleCache, bases: HandleCache,
                                baseRequests: RequestCache, pick: nat, picks: seq<nat>)
    returns (gen: CharacterGenerator, status: Status)
    requires Shared(db, bundles, bases, baseRequests)
    requires |db.availableCharacters| > 0 ==> pick < |db.availableCharacters|
    requires |db.availableCharacters| > 0 ==>
      var c := Lower(db.availableCharacters[pick]);
      HasCharacter(db.sortedElements.value, c) ==> PicksFit(CategoriesOf(db.sortedElements.value, c), picks)
    modifies bases, bundles
    ensures fresh(gen) && gen.Valid()
    ensures gen.db == db && gen.bundles == bundles && gen.bases == bases && gen.baseRequests == baseRequests
    ensures |db.availableCharacters| == 0 ==> status == Threw(ArgumentOutOfRange)
    ensures |db.availableCharacters| > 0 ==>
      RandomConfigOf(db.sortedElements.value, db.availableCharacters[pick], picks,
                     gen.currentCharacter, gen.currentConfiguration, status)
    ensures status == Completed ==> gen.Baselined()
  {
    gen := new CharacterGenerator(db, bundles, bases, baseRequests);
    status := gen.PrepareRandomCharacter(pick, picks);
  }
}
