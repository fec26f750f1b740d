/** The bundle file naming convention: the editor writes one bundle per renderer
    of a character model, named `<character>_<renderer>.assetbundle`, and the runtime
    catalog recovers character and category from that name. */
module BundleNames {
  import opened Seqs
  import opened Text
  import opened Outcomes

  const BundleExtension: string := ".assetbundle"

  /** How ReadyToUse splits an element's bundle name: the character is the first
      '_'-piece; the category is the second '_'-piece cut at its first '-', with every
      ".assetbundle" removed. A name without '_' has no second piece, and indexing
      it throws (None). */
  function ParseBundleName(bundleName: string): (r: Option<(string, string)>)
    ensures r.None? <==> '_' !in bundleName
    ensures r.Some? ==> '_' !in r.value.0 && StartsWith(bundleName, r.value.0 + "_")
  {
    var a := Split(bundleName, '_');
    if |a| < 2 then None
    else
      var i := IndexOf(bundleName, '_');
      assert a[0] == bundleName[..i];
      assert bundleName[..i + 1] == a[0] + "_";
      Some((a[0], RemoveAll(Split(a[1], '-')[0], BundleExtension)))
  }

  /** The same parse, stated by positions instead of by Split: the character is the
      text before the first '_'; the category comes from the text between the first
      and the second '_' (or the end), cut before its first '-'. */
  lemma ParseBundleNameSegments(bundleName: string)
    requires '_' in bundleName
    ensures ParseBundleName(bundleName) == Some((
      Before(bundleName, '_'),
      RemoveAll(Before(Before(After(bundleName, '_'), '_'), '-'), BundleExtension)))
  {
    SplitFirstTwo(bundleName, '_');
    SplitFirst(Split(bundleName, '_')[1], '-');
  }

  /** The file name CreateAssetbundles gives the bundle of renderer `rendererName`
      of the character model `modelName`. */
  function AssetbundleFileName(modelName: string, rendererName: string): string {
    Lower(modelName) + "_" + Lower(rendererName) + BundleExtension
  }

  /** Round trip between the editor's naming and the runtime parse: when the model
      name has no '_' and the renderer name has no '_', '-' or '.', the parse gives
      back the lower-cased model name as character and the lower-cased renderer
      name as category. */
  lemma {:induction false} ParseAssetbundleFileName(modelName: string, rendererName: string)
    requires '_' !in modelName
    requires '_' !in rendererName && '-' !in rendererName && '.' !in rendererName
    ensures ParseBundleName(AssetbundleFileName(modelName, rendererName)) ==
      Some((Lower(modelName), Lower(rendererName)))
  {
    var c, r := Lower(modelName), Lower(rendererName);
    LowerKeepsChar(modelName, '_');
    LowerKeepsChar(rendererName, '_');
    LowerKeepsChar(rendererName, '-');
    LowerKeepsChar(rendererName, '.');
    var tail := r + BundleExtension;
    assert '_' !in tail && '-' !in tail by {
      assert forall i :: |r| <= i < |tail| ==> tail[i] == BundleExtension[i - |r|];
    }
    var b := AssetbundleFileName(modelName, rendererName);
    assert b == Join([c, tail], '_');
    SplitJoin([c, tail], '_');
    assert Split(tail, '-') == [tail];
    RemoveAllAppended(r, BundleExtension);
  }
}
