/** The editor command "Update Character Element Database": one CharacterElement
    for every generated material, paired with the bundle built from the renderer
    whose name the material's file name starts with. The two directory listings
    are inputs. */
module ElementDatabase {
  import opened Outcomes
  import opened Text
  import opened Elements

  /** The directory every generated material sits in. */
  const GeneratedDir: string := "Per Texture Materials"

  /** The bundle file name without its extension, as compared with material names. */
  function BundleStem(bundle: string): string {
    RemoveAll(FileName(bundle), ".assetbundle")
  }

  /** The test a (material, bundle) pair must pass: the material's file name starts
      with the bundle's stem, and the material lies under a generated-materials
      directory. */
  predicate Matches(material: string, bundle: string) {
    StartsWith(FileName(material), BundleStem(bundle)) && Contains(material, GeneratedDir)
  }

  /** The first bundle of the listing that matches `material`, if any. */
  function FirstMatch(material: string, bundles: seq<string>): (r: Option<string>)
    ensures r.None? <==> forall k :: 0 <= k < |bundles| ==> !Matches(material, bundles[k])
    ensures r.Some? ==> exists i :: (0 <= i < |bundles| && bundles[i] == r.value &&
      Matches(material, r.value) && forall k :: 0 <= k < i ==> !Matches(material, bundles[k]))
  {
    if |bundles| == 0 then None
    else if Matches(material, bundles[0]) then Some(bundles[0])
    else
      var r := FirstMatch(material, bundles[1..]);
      assert forall k :: 1 <= k < |bundles| ==> bundles[k] == bundles[1..][k - 1];
      r
  }

  /** The (name, bundleName) of the element made for `material` and `bundle`: the
      material file name without ".mat", and the bundle file name as it is. */
  function ElementFor(material: string, bundle: string): (string, string) {
    (RemoveAll(FileName(material), ".mat"), FileName(bundle))
  }

  /** The database the command builds: for each material in listing order, the
      element for its first matching bundle, a material without a match adding nothing. */
  function Database(materials: seq<string>, bundles: seq<string>): seq<(string, string)> {
    if |materials| == 0 then []
    else
      var m := materials[|materials| - 1];
      var found := FirstMatch(m, bundles);
      Database(materials[..|materials| - 1], bundles) +
        (if found.Some? then [ElementFor(m, found.value)] else [])
  }

  /** (name, bundleName) of each element of a list. */
  function Records(es: seq<CharacterElement>): (rs: seq<(string, string)>)
    ensures |rs| == |es|
    ensures forall i :: 0 <= i < |es| ==> rs[i] == (es[i].name, es[i].bundleName)
  {
    seq(|es|, i requires 0 <= i < |es| => (es[i].name, es[i].bundleName))
  }

  lemma RecordsSnoc(es: seq<CharacterElement>, e: CharacterElement)
    ensures Records(es + [e]) == Records(es) + [(e.name, e.bundleName)]
  {
  }

  /** The inner loop of Execute: the bundles are scanned in listing order and the
      scan stops at the first match. */
  method FindBundle(material: string, bundles: seq<string>) returns (r: Option<string>)
    ensures r == FirstMatch(material, bundles)
  {
    var j := 0;
    while j < |bundles|
      invariant 0 <= j <= |bundles|
      invariant FirstMatch(material, bundles) == FirstMatch(material, bundles[j..])
    {
      var bundle := bundles[j];
      var bundleName := RemoveAll(FileName(bundle), ".assetbundle");
      if StartsWith(FileName(material), bundleName) && Contains(material, GeneratedDir) {
        return Some(bundle);
      }
      assert bundles[j..][1..] == bundles[j + 1..];
      j := j + 1;
    }
    return None;
  }

  /** Execute: the scan over the material listing, one element per material that
      some bundle matches. */
  method Execute(materials: seq<string>, bundles: seq<string>) returns (elements: seq<CharacterElement>)
    ensures Records(elements) == Database(materials, bundles)
  {
    elements := [];
    for i := 0 to |materials|
      invariant Records(elements) == Database(materials[..i], bundles)
    {
      var material := materials[i];
      assert materials[..i + 1][..i] == materials[..i];
      var found := FindBundle(material, bundles);
      if found.Some? {
        var e := new CharacterElement(RemoveAll(FileName(material), ".mat"), FileName(found.value));
        RecordsSnoc(elements, e);
        elements := elements + [e];
      }
    }
    assert materials[..|materials|] == materials;
  }

  /** Each material yields at most one element. */
  lemma {:induction false} AtMostOnePerMaterial(materials: seq<string>, bundles: seq<string>)
    ensures |Database(materials, bundles)| <= |materials|
  {
    if |materials| > 0 {
      AtMostOnePerMaterial(materials[..|materials| - 1], bundles);
    }
  }

  /** A material outside every generated-materials directory yields nothing,
      whatever the bundles are. */
  lemma OutsideGeneratedDir(material: string, bundles: seq<string>)
    requires !Contains(material, GeneratedDir)
    ensures FirstMatch(material, bundles) == None
  {
  }

  /** Element `k` comes from a material `materials[i]` and its first matching bundle
      `bundles[j]`. */
  lemma {:induction false} DatabaseOrigin(materials: seq<string>, bundles: seq<string>, k: nat)
    returns (i: nat, j: nat)
    requires k < |Database(materials, bundles)|
    ensures i < |materials| && j < |bundles|
    ensures Database(materials, bundles)[k] == ElementFor(materials[i], bundles[j])
    ensures Matches(materials[i], bundles[j]) && FirstMatch(materials[i], bundles) == Some(bundles[j])
  {
    var n := |materials|;
    var init := materials[..n - 1];
    if k < |Database(init, bundles)| {
      i, j := DatabaseOrigin(init, bundles, k);
    } else {
      var found := FirstMatch(materials[n - 1], bundles);
      var b :| 0 <= b < |bundles| && bundles[b] == found.value && Matches(materials[n - 1], found.value);
      i, j := n - 1, b;
    }
  }

  /** Output order follows the material listing: the elements of the first `i`
      materials come first, in the same order. */
  lemma {:induction false} DatabasePrefix(materials: seq<string>, bundles: seq<string>, i: nat)
    requires i <= |materials|
    ensures Database(materials[..i], bundles) <= Database(materials, bundles)
    decreases |materials| - i
  {
    if i < |materials| {
      var n := |materials|;
      var init := materials[..n - 1];
      DatabasePrefix(init, bundles, i);
      assert init[..i] == materials[..i];
      var whole := Database(materials, bundles);
      assert Database(init, bundles) <= whole;
    } else {
      assert materials[..i] == materials;
    }
  }
}
