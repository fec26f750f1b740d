# Character generator: a verified model

This project models the character-customisation core of a Unity example project.
A character is one *character base* plus a *configuration*. The base holds the
bones and animations. The configuration chooses one *character element* for each
*category* (a body part such as "hair" or "pants"). An element is one material of
one skinned-mesh renderer. It lives in its own downloadable asset bundle.

The runtime side is `CharacterGenerator` and `CharacterElement`:

- The element database is downloaded once and parsed into a catalog:
  character → category → elements. The character and category come from each
  bundle file name (`<character>_<category>[-…].assetbundle`).
- Configurations can be drawn at random or stepped to the next or previous
  character or element, with wrap-around. They can also be saved to a
  `|`-separated string and restored from it.
- Downloads are polled. The progress bar is measured from a baseline taken at the
  last configuration change. Each bundle's three asset loads start once, the first
  time they are missing.
- When everything has loaded, the selected renderers are combined onto the
  character base. The result is one list of combine entries, one list of
  materials, and the base's bones, found by name.

The editor side is two menu commands:

- *Generate Materials* creates one material per texture of each selected character
  model. A texture gets a material when its name contains a renderer's name.
  Existing materials are never overwritten. A warning dialog appears when no
  texture matched.
- *Update Character Element Database* matches every generated material to its
  first bundle and records one element per match.

Lemmas tie the two sides together:

- A bundle file name written by the editor parses back, at runtime, into the same
  character and category.
- A generated material's file name becomes the element name.

## Design

- **Modules.** There is one module per concern:
  - `Seqs` and `Text`: list and string helpers;
  - `Assets`: the asset values, such as meshes, prefabs and transforms;
  - `Fetch`: downloads, asset loads and their caches;
  - `Elements`: `CharacterElement`;
  - `BundleNames`, `Catalog`: the database parse;
  - `ConfigCodec`: the configuration string;
  - `Navigation`: next and previous;
  - `Progress`;
  - `Compose`: combining the renderers;
  - `Generator`: `CharacterGenerator`;
  - `ElementDatabase` and `GenerateMaterials`: the two editor commands.
- **Heap objects.** Objects the source mutates are classes with `modifies`
  frames: downloads (`Fetch.Handle`), asset loads (`Fetch.Request`), the
  process-wide caches, the element database, the elements and the generator.
- **Dictionaries.** The source's dictionaries keep insertion order. They are
  association lists (`seq<(string, V)>`) updated by `Seqs.Put`. Looking up a
  missing key is modelled as a `Status` of `Threw(KeyNotFound)`.
- **Exceptions.** Every exception the source raises on its callers' input or on
  the catalog's contents is a `Status` result, modelled with the state the source
  leaves behind at that point. The exceptions of calling generation before the
  loads have finished are preconditions instead (see "Left out").
- **Specification functions.** Each loop of the source is a method proved equal
  to a recursive specification function on its inputs. The source's promises are
  lemmas about that function.

## Model

| member | source | states |
|---|---|---|
| Fetch.HandleCache.GetOrCreate | Assets/Plugins/CharacterGenerator.cs:334-342 | At most one WWW per key: an existing WWW is returned again. A missing key gets a fresh WWW for base URL + key + suffix. No other entry changes. |
| Fetch.RequestCache.GetOrLoad | Assets/Plugins/CharacterGenerator.cs:234-237 | The load of the character base starts only when the character has no request yet. An existing request is never replaced. |
| Fetch.Handle.LoadAsync | Assets/Plugins/CharacterElement.cs:60-66 | A fresh, unfinished load of the named asset and kind, out of this downloaded bundle. |
| Elements.CharacterElement.constructor | Assets/Plugins/CharacterElement.cs:32-36 | Stores the name and the bundle name. No load has started. |
| Elements.CharacterElement.WWW | Assets/Plugins/CharacterElement.cs:40-48 | The WWW keyed by the bundle file name. It is shared with every element that names the same bundle and is created only the first time. |
| Elements.CharacterElement.IsLoaded | Assets/Plugins/CharacterElement.cs:53-74 | True exactly when the bundle and all three loads are done. Before the bundle is done, no load starts. Afterwards, each missing load starts once ("rendererobject", the element's material, "bonenames") and a load that was started is kept. |
| Elements.CharacterElement.Poll | Assets/Plugins/CharacterElement.cs:53-74 | IsLoaded as seen by its caller: the answer is Loaded; no element of any bundle stops being loaded, and no element loses or replaces a load it had started. |
| Elements.WithFirstMaterial | Assets/Plugins/CharacterElement.cs:79 | Setting `Renderer.material` replaces slot 0 and keeps every other slot. |
| Elements.CharacterElement.GetSkinnedMeshRenderer | Assets/Plugins/CharacterElement.cs:76-81 | A fresh renderer with the prefab's shared mesh and the element's material in its first slot. |
| Elements.CharacterElement.GetBoneNames | Assets/Plugins/CharacterElement.cs:83-87 | The bone names stored in the bundle, unchanged. |
| BundleNames.ParseBundleName | Assets/Plugins/CharacterGenerator.cs:189-191 | Parsing a bundle name fails (where the source indexes `a[1]` out of range) exactly when the name has no '_'. Otherwise the character has no '_' and is followed by the first '_' of the name. |
| BundleNames.ParseBundleNameSegments | Assets/Plugins/CharacterGenerator.cs:189-191 | The character is the text before the first '_'. The category is the text between the first and second '_', cut at the first '-', with ".assetbundle" removed. |
| BundleNames.ParseAssetbundleFileName | Assets/Plugins/Editor/CreateAssetbundles.cs:98-99 | A bundle written as `lower(model)_lower(renderer).assetbundle` parses back to the lower-cased model and renderer names, provided neither name contains '_' and the renderer name contains no '-' or '.'. |
| Catalog.ParsedPrefix | Assets/Plugins/CharacterGenerator.cs:187-191 | The number of records parsed before the first record without '_'. |
| Catalog.InsertElements | Assets/Plugins/CharacterGenerator.cs:196-202 | Inserting an element appends it to exactly its own character and category and leaves every other list as it was. |
| Catalog.InsertKeys | Assets/Plugins/CharacterGenerator.cs:196-197 | A character is added at the end, and only when it is new. |
| Catalog.InsertCategories | Assets/Plugins/CharacterGenerator.cs:199-200 | A category is added at the end of its character's categories, and only when it is new. |
| Catalog.InsertWellFormed | Assets/Plugins/CharacterGenerator.cs:193-202 | After an insert, no character or category appears twice and no category is empty. |
| Catalog.BuildElementsOf | Assets/Plugins/CharacterGenerator.cs:186-203 | The catalog's list for (character, category) is exactly the records with that character and category, in database order. |
| Catalog.BuildCharacters | Assets/Plugins/CharacterGenerator.cs:193-197 | The catalog's characters are the records' characters without duplicates, in order of first occurrence. |
| Catalog.BuildCategories | Assets/Plugins/CharacterGenerator.cs:199-200 | A character's categories are its records' categories without duplicates, in order of first occurrence. |
| Catalog.BuildWellFormed | Assets/Plugins/CharacterGenerator.cs:186-203 | The catalog built from any records that parse is well formed. |
| Catalog.ParseElements | Assets/Plugins/CharacterGenerator.cs:186-203 | The parse loop stops at the first record it cannot split. The table is the catalog of the records before it, and `availableCharacters` is the table's character list. |
| Catalog.Database.constructor | Assets/Plugins/CharacterGenerator.cs:17-26 | No database WWW, no catalog and no available characters yet. |
| Catalog.Database.ReadyToUse | Assets/Plugins/CharacterGenerator.cs:174-206 | The database WWW is created once, for "CharacterElementDatabase.assetbundle". Once the catalog exists the answer is true and nothing changes. Before the download is done the answer is false. Otherwise the catalog of the parsed records is stored, and a record without '_' throws IndexOutOfRange, leaving the partial catalog. |
| Catalog.Database.Parse | Assets/Plugins/CharacterGenerator.cs:184-204 | The parse of a downloaded database: the catalog of the parsed prefix, with completion exactly when every record parses. |
| ConfigCodec.Encode | Assets/Plugins/CharacterGenerator.cs:126-132 | The saved string starts with the character. When anything is selected, a '\|' follows the character, and each entry adds at least its two separators. |
| ConfigCodec.EncodeIsJoin | Assets/Plugins/CharacterGenerator.cs:126-132 | The saved string is the character, then each category and element name in configuration order, all joined with '\|'. |
| ConfigCodec.FindByName | Assets/Plugins/CharacterGenerator.cs:113-118 | None exactly when no element has the name. Otherwise the result is an element of the list with that name. |
| ConfigCodec.FindByNameFirst | Assets/Plugins/CharacterGenerator.cs:113-118 | The search returns the first element with the name. |
| ConfigCodec.DecodeFromValid | Assets/Plugins/CharacterGenerator.cs:108-121 | Reading pairs only appends entries that keep the configuration valid. It completes only when the tokens come in whole pairs. |
| ConfigCodec.Decode | Assets/Plugins/CharacterGenerator.cs:102-121 | The character is the lower-cased text before the first '\|': lower case and without '\|'. Entries are restored only for a character of the catalog. |
| ConfigCodec.DecodeValid | Assets/Plugins/CharacterGenerator.cs:102-121 | Every restored configuration is valid for its character, including one cut short by an exception. On completion there are exactly 1 + 2·n tokens. |
| ConfigCodec.EncodeIsLower | Assets/Plugins/CharacterGenerator.cs:104 | A configuration in lower case encodes to a string that lower-casing leaves unchanged. |
| ConfigCodec.SplitEncode | Assets/Plugins/CharacterGenerator.cs:104-105 | Lower-casing and splitting a saved string at '\|' gives back its tokens, when no name contains '\|'. |
| ConfigCodec.DecodePairs | Assets/Plugins/CharacterGenerator.cs:108-121 | Reading the pairs of a configuration with distinct categories, whose elements are found by name, restores it and completes. |
| ConfigCodec.DecodeEncode | Assets/Plugins/CharacterGenerator.cs:102-132 | Round trip: restoring the string that GetConfig saved gives back the same character and configuration, when the names are lower case without '\|', no category repeats, and each element is the first of its list with its name. |
| Navigation.AdjacentIsModular | Assets/Plugins/CharacterGenerator.cs:142-145 | The next item is at index (i+1) mod n and the previous one at (i−1+n) mod n. |
| Navigation.Step | Assets/Plugins/CharacterGenerator.cs:139-147 | There is no neighbour exactly when the item is not in the list. |
| Navigation.FindAdjacent | Assets/Plugins/CharacterGenerator.cs:136-147 | The search loop returns the neighbour of the first occurrence, wrapping around, or None. |
| Navigation.StepThereAndBack | Assets/Plugins/CharacterGenerator.cs:139-147 | In a list without duplicates, stepping forward and then back (or back and then forward) returns to the start. |
| Navigation.FullCircle | Assets/Plugins/CharacterGenerator.cs:136-147 | In a list without duplicates, n forward steps from any item come back to it. |
| Progress.SumBounds | Assets/Plugins/CharacterGenerator.cs:314-316 | The sum of n progress values in [0, 1] is in [0, n]. |
| Progress.SumMonotone | Assets/Plugins/CharacterGenerator.cs:218-220 | Progress that only grows gives a sum that only grows. |
| Progress.Ratio | Assets/Plugins/CharacterGenerator.cs:212-223 | With nothing left to download at the last change the progress is 1. Otherwise it is the part of what was left at the change that has been downloaded since: the ratio times what was left is the progress made. |
| Progress.RatioAtChange | Assets/Plugins/CharacterGenerator.cs:216-221 | Right after a change, the progress is 0. |
| Progress.RatioComplete | Assets/Plugins/CharacterGenerator.cs:216-221 | When every download is complete, the progress is 1. |
| Progress.RatioBounds | Assets/Plugins/CharacterGenerator.cs:216-221 | While the total stays between the baseline and the maximum, the progress stays in [0, 1]. |
| Progress.RatioUnclamped | Assets/Plugins/CharacterGenerator.cs:216-221 | The code does not clamp: a baseline above the current total is reported as a value above 1 (1.5 in the example). |
| Compose.SubMeshes | Assets/Plugins/CharacterGenerator.cs:274-280 | One combine entry per submesh, in index order. |
| Compose.FlattenAt | Assets/Plugins/CharacterGenerator.cs:265-296 | Item j of list i appears in the concatenation after all items of the lists before it. |
| Compose.CombineEntriesLength | Assets/Plugins/CharacterGenerator.cs:265-296 | There are as many combine entries as submeshes over all selected renderers. |
| Compose.CombineEntriesAt | Assets/Plugins/CharacterGenerator.cs:265-296 | Submesh j of renderer i is the entry after the submeshes of the renderers before it. |
| Compose.MaterialsAt | Assets/Plugins/CharacterGenerator.cs:273 | Material slot j of renderer i is in the list, after the slots of the renderers before it. |
| Compose.FirstNamed | Assets/Plugins/CharacterGenerator.cs:287-292 | None exactly when no transform has the name. Otherwise it is the first transform with that name. |
| Compose.ResolveBonesSound | Assets/Plugins/CharacterGenerator.cs:285-293 | At most one bone per name. Every bone is a transform of the base that carries one of the names. |
| Compose.ResolveBonesAllFound | Assets/Plugins/CharacterGenerator.cs:285-293 | When every name is found, bone k is the first transform named names[k]. |
| Compose.BonesSound | Assets/Plugins/CharacterGenerator.cs:285-293 | There are never more bones than bone names. Every bone is a transform of the base named by some renderer. |
| Generator.PickedEntries | Assets/Plugins/CharacterGenerator.cs:95-96 | A random configuration has every category of the character, in catalog order, each holding the element at its drawn position. |
| Generator.Draw | Assets/Plugins/CharacterGenerator.cs:95-96 | The drawing loop builds exactly that configuration. |
| Generator.PickedValid | Assets/Plugins/CharacterGenerator.cs:91-98 | A random configuration is valid for the character and covers all its categories. |
| Generator.SearchByName | Assets/Plugins/CharacterGenerator.cs:113-118 | The element search loop returns the first element with the name. |
| Generator.ReadPairs | Assets/Plugins/CharacterGenerator.cs:107-121 | The pair-reading loop gives the configuration and status of the decoding function, including the three exceptions: a missing second token, an unknown category, and an unknown element. |
| Generator.PutValid | Assets/Plugins/CharacterGenerator.cs:166 | Replacing the element of a configured category, with an element of that category, keeps the configuration valid and its categories unchanged. |
| Generator.ChangeElementThereAndBack | Assets/Plugins/CharacterGenerator.cs:153-166 | Changing an element to the next and then to the previous one (or the reverse) restores the configuration. |
| Generator.ProgressesBounds | Assets/Plugins/CharacterGenerator.cs:315-316 | Each element's progress is in [0, 1]. |
| Generator.DownloadedBounds | Assets/Plugins/CharacterGenerator.cs:314-316 | The downloaded amount for a configuration of n elements is in [0, n + 1]. |
| Generator.SumProgress | Assets/Plugins/CharacterGenerator.cs:219-220 | The loop over the configuration gets each element's WWW and returns the sum of their progress. It creates WWWs only for the configuration's bundles. |
| Generator.PollElements | Assets/Plugins/CharacterGenerator.cs:239-242 | True exactly when every selected element is loaded; otherwise the ghost `stop` is the first element that is not, and every element before it is loaded. Each started load is kept. An element that appears only after `stop` is left untouched. It creates WWWs only for the configuration's bundles. |
| Generator.SubMeshEntries | Assets/Plugins/CharacterGenerator.cs:274-280 | The submesh loop yields one combine entry per submesh, in order. |
| Generator.FindTransform | Assets/Plugins/CharacterGenerator.cs:287-292 | The transform search returns the first transform with the bone's name. |
| Generator.CollectBones | Assets/Plugins/CharacterGenerator.cs:285-293 | The bone loop resolves each name to its first transform. Missing names are skipped. |
| Generator.Contribute | Assets/Plugins/CharacterGenerator.cs:272-293 | One element contributes its renderer's submeshes, its materials (its own material in slot 0), and its resolved bones. |
| Generator.Assemble | Assets/Plugins/CharacterGenerator.cs:265-296 | The loop over the configuration yields the concatenated combine entries, materials and bones of all selected elements, in configuration order. |
| Generator.CharacterRoot.constructor | Assets/Plugins/CharacterGenerator.cs:250-251 | The instantiated base carries the character's name and the prefab's transforms. |
| Generator.CharacterRoot.Attach | Assets/Plugins/CharacterGenerator.cs:300-304 | The base's renderer receives the combined entries, the bones and the materials. |
| Generator.CharacterGenerator.constructor | Assets/Plugins/CharacterGenerator.cs:54-58 | A generator has an empty configuration and is created only once the catalog is ready. |
| Generator.CreateWithRandomConfig | Assets/Plugins/CharacterGenerator.cs:62-67 | A new generator with a random configuration of a random available character. An empty character list throws ArgumentOutOfRange (the List indexer), as Random.Range(0, 0) returns 0. |
| Generator.CreateWithRandomConfigOf | Assets/Plugins/CharacterGenerator.cs:69-74 | A new generator with a random configuration of the given character, or KeyNotFound. |
| Generator.CreateWithConfig | Assets/Plugins/CharacterGenerator.cs:76-81 | A new generator holding the decoding of the saved string. |
| Generator.CharacterGenerator.PrepareRandomCharacter | Assets/Plugins/CharacterGenerator.cs:86-89 | A random configuration for the drawn character. An empty character list throws ArgumentOutOfRange (the List indexer) before anything changes. |
| Generator.CharacterGenerator.PrepareRandomConfig | Assets/Plugins/CharacterGenerator.cs:91-98 | The configuration is cleared and the lower-cased character selected. A known character gets one drawn element per category and a new baseline. An unknown one throws KeyNotFound and leaves the configuration empty. |
| Generator.CharacterGenerator.PrepareConfig | Assets/Plugins/CharacterGenerator.cs:102-123 | The character and configuration become the decoding of the string. On an exception, the pairs read before it stay and the baseline is kept. On completion, a new baseline is taken. |
| Generator.CharacterGenerator.GetConfig | Assets/Plugins/CharacterGenerator.cs:126-132 | The string is the encoding of the current character and configuration. ConfigCodec.DecodeEncode is its inverse. |
| Generator.CharacterGenerator.ChangeCharacter | Assets/Plugins/CharacterGenerator.cs:136-149 | A random configuration of the neighbouring available character, with wrap-around. When the current character is not listed, the configuration is cleared and the call throws NullReference. |
| Generator.CharacterGenerator.ChangeElement | Assets/Plugins/CharacterGenerator.cs:153-168 | The category moves to its neighbouring element (with wrap-around) and a new baseline is taken. An unknown or unconfigured category throws KeyNotFound and changes nothing. |
| Generator.CharacterGenerator.CurrentCharacterBase | Assets/Plugins/CharacterGenerator.cs:334-342 | The WWW of the current character's base bundle, created once. |
| Generator.CharacterGenerator.TotalProgress | Assets/Plugins/CharacterGenerator.cs:218-220 | The base's progress plus each element's progress. Only the needed WWWs are created. |
| Generator.CharacterGenerator.UpdateBaseline | Assets/Plugins/CharacterGenerator.cs:312-317 | The baseline becomes the downloaded amount of the current configuration. Nothing else changes. |
| Generator.CharacterGenerator.SetBaseline | Assets/Plugins/CharacterGenerator.cs:314-316 | Stores the baseline. |
| Generator.CharacterGenerator.CurrentConfigProgress | Assets/Plugins/CharacterGenerator.cs:212-223 | Exactly 1, creating no WWW, when nothing was left at the baseline. Otherwise (total − baseline) / (count + 1 − baseline). |
| Generator.CharacterGenerator.PollBase | Assets/Plugins/CharacterGenerator.cs:232-237 | True exactly when the base bundle and its load are done. The load starts once, and only after the bundle is in; an existing request is kept. The element bundles and the elements are not touched. |
| Generator.CharacterGenerator.ConfigReady | Assets/Plugins/CharacterGenerator.cs:228-244 | True exactly when the base and every selected element are loaded. While the base is not loaded, no element bundle and no element changes. An existing base request, and every load an element has started, is kept. |
| Generator.CharacterGenerator.PollSelection | Assets/Plugins/CharacterGenerator.cs:239-243 | True exactly when every selected element is loaded. Started loads are kept, the base caches are not touched and whether the base is loaded does not change. |
| Generator.CharacterGenerator.GenerateInto | Assets/Plugins/CharacterGenerator.cs:258-308 | The recycled base gets the combine entries, the materials and the bones of the selected elements. Its name is kept. |
| Generator.CharacterGenerator.Generate | Assets/Plugins/CharacterGenerator.cs:248-253 | A fresh base named after the character, with the prefab's transforms and the combined elements. Without a started base load, the call throws KeyNotFound. |
| ElementDatabase.FirstMatch | Assets/Plugins/Editor/UpdateCharacterElementDatabase.cs:24-32 | None exactly when no bundle matches. Otherwise it is the first matching bundle. |
| ElementDatabase.FindBundle | Assets/Plugins/Editor/UpdateCharacterElementDatabase.cs:24-33 | The bundle loop returns the first bundle whose stem starts the material's file name, for a material under the generated-materials directory. |
| ElementDatabase.Execute | Assets/Plugins/Editor/UpdateCharacterElementDatabase.cs:13-34 | The recorded (name, bundle file name) pairs are the database of the material and bundle listings. |
| ElementDatabase.AtMostOnePerMaterial | Assets/Plugins/Editor/UpdateCharacterElementDatabase.cs:22-33 | Each material yields at most one element. |
| ElementDatabase.OutsideGeneratedDir | Assets/Plugins/Editor/UpdateCharacterElementDatabase.cs:30 | A material outside the generated-materials directory yields no element. |
| ElementDatabase.DatabaseOrigin | Assets/Plugins/Editor/UpdateCharacterElementDatabase.cs:22-33 | Every recorded element comes from a listed material and its first matching listed bundle. It is named after the material's file name without ".mat" and points at the bundle's file name. |
| ElementDatabase.DatabasePrefix | Assets/Plugins/Editor/UpdateCharacterElementDatabase.cs:22-33 | The elements follow the material listing's order: a prefix of the listing yields a prefix of the database. |
| ElementDatabase.RecordsSnoc | Assets/Plugins/Editor/UpdateCharacterElementDatabase.cs:31 | Adding an element adds its record at the end. |
| GenerateMaterials.CharacterRoot | Assets/Plugins/Editor/GenerateMaterials.cs:78-82 | The directory part of the asset path, up to and including its last '/'. It is empty exactly when there is no '/', and followed by the file name it gives back the path. |
| GenerateMaterials.MaterialsPath | Assets/Plugins/Editor/GenerateMaterials.cs:86-91 | The materials directory lies in the model's directory and is named "Per Texture Materials". It contains that name, which the database command looks for, and it does not end in '/'. |
| GenerateMaterials.TexturesPath | Assets/Plugins/Editor/GenerateMaterials.cs:30 | The textures are collected from the directory "textures" in the model's directory. |
| GenerateMaterials.NormalMap | Assets/Plugins/Editor/GenerateMaterials.cs:36-43 | The first texture whose lower-cased name contains "normal" and the renderer's name. None when there is no such texture. |
| GenerateMaterials.FindNormalMap | Assets/Plugins/Editor/GenerateMaterials.cs:36-43 | The normal-map loop returns that texture. |
| GenerateMaterials.CreateMaterials | Assets/Plugins/Editor/GenerateMaterials.cs:47-68 | The texture loop gives the plan of the specification function: it sets validMaterial, skips existing paths, and picks the shader. |
| GenerateMaterials.ProcessModel | Assets/Plugins/Editor/GenerateMaterials.cs:33-69 | The renderer loop plans each renderer with its own normal map. |
| GenerateMaterials.Execute | Assets/Plugins/Editor/GenerateMaterials.cs:14-75 | The materials created and the dialog flag are those of the plan over the filtered selection. |
| GenerateMaterials.CreateSound | Assets/Plugins/Editor/GenerateMaterials.cs:57-67 | Creating a material at a path that did not exist keeps the plan sound. |
| GenerateMaterials.PlanTextureSound | Assets/Plugins/Editor/GenerateMaterials.cs:49-67 | One texture keeps the plan sound. |
| GenerateMaterials.PlanTexturesSound | Assets/Plugins/Editor/GenerateMaterials.cs:47-68 | The texture loop keeps the plan sound. |
| GenerateMaterials.PlanRenderersSound | Assets/Plugins/Editor/GenerateMaterials.cs:33-69 | The renderer loop keeps the plan sound. |
| GenerateMaterials.PlanObjectsSound | Assets/Plugins/Editor/GenerateMaterials.cs:17-70 | The selection loop keeps the plan sound. |
| GenerateMaterials.ExecuteSound | Assets/Plugins/Editor/GenerateMaterials.cs:55-67 | No existing material is overwritten. No path is created twice. Every file is an existing one or a created one. Each shader is "Bumped Specular" exactly when a normal map is set. |
| GenerateMaterials.PlanTexturesFiles | Assets/Plugins/Editor/GenerateMaterials.cs:47-68 | After a renderer's scan, the known files are the old ones plus the material path of every texture that gets a material. |
| GenerateMaterials.PlanRenderersFiles | Assets/Plugins/Editor/GenerateMaterials.cs:33-68 | After one model's renderer scan, the files are the old ones plus the material paths of exactly the (renderer, texture) pairs that get a material. |
| GenerateMaterials.PlanObjectsFiles | Assets/Plugins/Editor/GenerateMaterials.cs:14-75 | After the whole selection, the files are the old ones plus the material paths of every processed model. |
| GenerateMaterials.ExecuteFiles | Assets/Plugins/Editor/GenerateMaterials.cs:14-75 | Every texture that gets a material for a renderer of a processed model has its material file at the end, created by the run or already there. |
| GenerateMaterials.PlanTextureCreated | Assets/Plugins/Editor/GenerateMaterials.cs:49-67 | One texture creates nothing, or the material of that texture. |
| GenerateMaterials.PlanObjectsAppends | Assets/Plugins/Editor/GenerateMaterials.cs:17-70 | Materials are only ever added. |
| GenerateMaterials.PlanObjectsOrigin | Assets/Plugins/Editor/GenerateMaterials.cs:17-68 | Every created material belongs to a processed model of the selection, one of its renderers, and a texture of its listing named after that renderer that is not a normal map. Its path is the lower-cased texture name under the model's generated-materials directory, and its shader and bump map follow that renderer's normal map. |
| GenerateMaterials.PlanTexturesValid | Assets/Plugins/Editor/GenerateMaterials.cs:47-52 | The texture scan sets validMaterial exactly when some texture gets a material, whether or not the material already exists. |
| GenerateMaterials.PlanRenderersValid | Assets/Plugins/Editor/GenerateMaterials.cs:33-52 | So does the scan of all renderers. |
| GenerateMaterials.PlanObjectsValid | Assets/Plugins/Editor/GenerateMaterials.cs:17-52 | So does the scan of the selection, counting only processed models. |
| GenerateMaterials.DialogIffNoMatch | Assets/Plugins/Editor/GenerateMaterials.cs:73-74 | The dialog appears exactly when no renderer of a processed model has a matching texture. |
| GenerateMaterials.GeneratedMaterialElement | Assets/Plugins/Editor/GenerateMaterials.cs:53 | A generated material lies under the generated-materials directory. Its file name is the lower-cased texture name plus ".mat", so the element database names its element after the lower-cased texture. The database pairs it with a bundle exactly when that file name starts with the bundle's stem. |

## Left out

- Unity and I/O are not modelled:
  - the transport behind WWW; the environment advances progress and completion through `Fetch.Handle.Advance` and `Fetch.Request.Finish`;
  - `Object.Instantiate`, `Object.Destroy`, the geometry of `Mesh.CombineMeshes`, and `GetComponentsInChildren`; the base's transforms are an input;
  - the `AssetDatabase`, `Directory` and `BuildPipeline` calls of the editor commands, the selection filter's deep-asset enumeration, and `Debug.Log` with its timing.
- AssetbundleBaseURL depends on the platform. It is a constant string `baseUrl` given to the caches.
- Unity's `Random.Range` is not modelled. The drawn indices are parameters (`pick`, `picks`), and the preconditions require them in range, as Random.Range guarantees.
- Floats are modelled as reals, with no rounding.
- `ToLower` lower-cases ASCII letters only.
- `String.StartsWith`, which .NET compares under the current culture, is modelled as an ordinal prefix test (Assets/Plugins/Editor/UpdateCharacterElementDatabase.cs:29). For the ASCII bundle and material names the editor produces the two agree; culture-specific collation is not modelled.
- `FileInfo.Name` is modelled as the text after the last '/'. Windows '\' separators are not handled.
- Generator.CharacterGenerator.constructor: the throw when ReadyToUse is false is not modelled. The constructor requires a ready catalog instead.
- Generator.CharacterGenerator.constructor: `currentCharacter` starts as "" rather than null.
- Generator.CharacterGenerator.ConfigReady: the source evaluates CurrentCharacterBase twice. The model polls it once and uses the same WWW both times.
- Generator.CharacterGenerator.ChangeElement: the source can store a null element when the current element is missing from its category. Valid() rules this out, because every configured element belongs to its category.
- Generator.CharacterGenerator.GenerateInto: the state of the renderer before the call is not modelled. The renderer instantiated for each element is an immutable record, so its destruction is not modelled either.
- Generator.CharacterGenerator.GenerateInto: the contract describes the new renderer contents in terms of `old(...)`.
- Generator.CharacterGenerator.Generate: the prefab's asset type is required to be a character base, not checked.
- Generator.CharacterGenerator.Generate, Generator.CharacterGenerator.GenerateInto, Elements.CharacterElement.GetSkinnedMeshRenderer and Elements.CharacterElement.GetBoneNames: the source dereferences the requests and their assets without a check (Assets/Plugins/CharacterElement.cs:78-79 and 85-86, Assets/Plugins/CharacterGenerator.cs:250, 272 and 285), so calling them before the loads are done throws NullReference or fails in Instantiate. The model requires the loads to be finished instead, as the source's comment demands (Assets/Plugins/CharacterGenerator.cs:227: ConfigReady must be true before Generate). The kinds of the loaded assets are an assumption about the bundle contents, since `Fetch.Request.Finish` accepts any asset.
- Generator.CharacterGenerator.CurrentConfigProgress: the code does not clamp the ratio, although its comment (Assets/Plugins/CharacterGenerator.cs:208-211) says it gives a progress indication that runs from 0 to 1. The model follows the code; `Progress.RatioUnclamped` shows the value it can reach.
- Elements.WithFirstMaterial: for a renderer with no material slots the model gives the single slot `[m]`. This assumes Unity's `Renderer.material` setter creates slot 0; the engine's behaviour there is not part of this model.
- GenerateMaterials.Execute: the texture listing is an input function of the directory. `File.Exists` is an input set of existing paths, to which the files created during the run are added.
- ElementDatabase.Execute: the two directory listings are inputs. The resulting list is returned; writing it into an asset bundle is not modelled.
- Generator.CharacterGenerator.PrepareConfig: an odd number of tokens and an unknown character are modelled as error statuses, not as preconditions.
