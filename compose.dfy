/** The bookkeeping of Generate(root): the lists handed to Mesh.CombineMeshes and
    to the combined renderer, as functions of what each selected element brings. */
module Compose {
  import opened Assets
  import opened Outcomes

  /** A CombineInstance: one submesh of one mesh. */
  datatype CombineInstance = CombineInstance(mesh: Mesh, subMeshIndex: nat)

  /** What one selected element contributes: its renderer's shared mesh and
      material slots, and the names of the bones its renderer uses. */
  datatype Fragment = Fragment(mesh: Mesh, materials: seq<MaterialId>, boneNames: seq<string>)

  /** The concatenation of a list of lists, in order. */
  function Flatten<T>(xss: seq<seq<T>>): seq<T> {
    if |xss| == 0 then [] else Flatten(xss[..|xss| - 1]) + xss[|xss| - 1]
  }

  /** The total length of a list of lists. */
  function TotalLength<T>(xss: seq<seq<T>>): nat {
    if |xss| == 0 then 0 else TotalLength(xss[..|xss| - 1]) + |xss[|xss| - 1]|
  }

  lemma {:induction false} FlattenLength<T>(xss: seq<seq<T>>)
    ensures |Flatten(xss)| == TotalLength(xss)
  {
    if |xss| > 0 {
      FlattenLength(xss[..|xss| - 1]);
    }
  }

  /** Item `j` of list `i` sits at position TotalLength(xss[..i]) + j of the concatenation. */
  lemma {:induction false} FlattenAt<T>(xss: seq<seq<T>>, i: nat, j: nat)
    requires i < |xss| && j < |xss[i]|
    ensures TotalLength(xss[..i]) + j < |Flatten(xss)|
    ensures Flatten(xss)[TotalLength(xss[..i]) + j] == xss[i][j]
  {
    var n := |xss|;
    var init := xss[..n - 1];
    FlattenLength(xss);
    FlattenLength(init);
    if i < n - 1 {
      assert init[..i] == xss[..i];
      FlattenAt(init, i, j);
      assert init[i] == xss[i];
    } else {
      assert xss[..i] == init;
    }
  }

  /** The combine entries of one mesh: submesh 0, 1, ..., subMeshCount - 1. */
  function SubMeshes(m: Mesh): (r: seq<CombineInstance>)
    ensures |r| == m.subMeshCount
    ensures forall j :: 0 <= j < |r| ==> r[j] == CombineInstance(m, j)
  {
    seq(m.subMeshCount, j requires 0 <= j < m.subMeshCount => CombineInstance(m, j))
  }

  /** The combine entries of every fragment, fragment by fragment. */
  function CombineEntries(fs: seq<Fragment>): seq<CombineInstance> {
    Flatten(seq(|fs|, i requires 0 <= i < |fs| => SubMeshes(fs[i].mesh)))
  }

  /** The number of submeshes of the fragments before position `i`. */
  function SubMeshOffset(fs: seq<Fragment>, i: nat): nat
    requires i <= |fs|
  {
    if i == 0 then 0 else SubMeshOffset(fs, i - 1) + fs[i - 1].mesh.subMeshCount
  }

  lemma {:induction false} SubMeshOffsetIsLength(fs: seq<Fragment>, i: nat)
    requires i <= |fs|
    ensures SubMeshOffset(fs, i) ==
      TotalLength(seq(|fs|, k requires 0 <= k < |fs| => SubMeshes(fs[k].mesh))[..i])
  {
    var xss := seq(|fs|, k requires 0 <= k < |fs| => SubMeshes(fs[k].mesh));
    if i > 0 {
      SubMeshOffsetIsLength(fs, i - 1);
      assert xss[..i][..i - 1] == xss[..i - 1];
    }
  }

  /** One entry per submesh of every fragment: as many entries as submeshes in all. */
  lemma CombineEntriesLength(fs: seq<Fragment>)
    ensures |CombineEntries(fs)| == SubMeshOffset(fs, |fs|)
  {
    var xss := seq(|fs|, k requires 0 <= k < |fs| => SubMeshes(fs[k].mesh));
    FlattenLength(xss);
    SubMeshOffsetIsLength(fs, |fs|);
    assert xss[..|fs|] == xss;
  }

  /** Submesh `j` of fragment `i` is the entry at offset SubMeshOffset(fs, i) + j, with
      that fragment's mesh and index `j`. */
  lemma CombineEntriesAt(fs: seq<Fragment>, i: nat, j: nat)
    requires i < |fs| && j < fs[i].mesh.subMeshCount
    ensures SubMeshOffset(fs, i) + j < |CombineEntries(fs)|
    ensures CombineEntries(fs)[SubMeshOffset(fs, i) + j] == CombineInstance(fs[i].mesh, j)
  {
    var xss := seq(|fs|, k requires 0 <= k < |fs| => SubMeshes(fs[k].mesh));
    FlattenAt(xss, i, j);
    SubMeshOffsetIsLength(fs, i);
  }

  /** The material list: every fragment's material slots, in order. */
  function Materials(fs: seq<Fragment>): seq<MaterialId> {
    Flatten(seq(|fs|, i requires 0 <= i < |fs| => fs[i].materials))
  }

  /** Slot `j` of fragment `i` is in the material list, after the slots of the fragments before it. */
  lemma MaterialsAt(fs: seq<Fragment>, i: nat, j: nat)
    requires i < |fs| && j < |fs[i].materials|
    ensures var xss := seq(|fs|, k requires 0 <= k < |fs| => fs[k].materials);
      && TotalLength(xss[..i]) + j < |Materials(fs)|
      && Materials(fs)[TotalLength(xss[..i]) + j] == fs[i].materials[j]
  {
    var xss := seq(|fs|, k requires 0 <= k < |fs| => fs[k].materials);
    FlattenAt(xss, i, j);
  }

  /** The first transform of the hierarchy with exactly this name, if any. */
  function FirstNamed(ts: seq<Transform>, name: string): (r: Option<Transform>)
    ensures r.None? <==> forall k :: 0 <= k < |ts| ==> ts[k].name != name
    ensures r.Some? ==> exists i :: (0 <= i < |ts| && ts[i] == r.value && ts[i].name == name &&
      forall k :: 0 <= k < i ==> ts[k].name != name)
  {
    if |ts| == 0 then None
    else if ts[0].name == name then Some(ts[0])
    else
      var r := FirstNamed(ts[1..], name);
      assert forall k :: 1 <= k < |ts| ==> ts[k] == ts[1..][k - 1];
      r
  }

  /** The bones found for a list of names: the first match of each name, in the
      order of the names, a name without a match adding nothing. */
  function ResolveBones(ts: seq<Transform>, names: seq<string>): seq<Transform> {
    if |names| == 0 then []
    else
      var found := FirstNamed(ts, names[|names| - 1]);
      ResolveBones(ts, names[..|names| - 1]) + (if found.Some? then [found.value] else [])
  }

  /** At most one bone per name, and every bone is a transform of the hierarchy
      carrying one of the names. */
  lemma {:induction false} ResolveBonesSound(ts: seq<Transform>, names: seq<string>)
    ensures |ResolveBones(ts, names)| <= |names|
    ensures forall b :: b in ResolveBones(ts, names) ==> b in ts && b.name in names
  {
    if |names| > 0 {
      var init := names[..|names| - 1];
      ResolveBonesSound(ts, init);
      assert forall x :: x in init ==> x in names;
    }
  }

  /** When every name has a match, the bones are exactly the first matches, name by name. */
  lemma {:induction false} ResolveBonesAllFound(ts: seq<Transform>, names: seq<string>)
    requires forall k :: 0 <= k < |names| ==> FirstNamed(ts, names[k]).Some?
    ensures |ResolveBones(ts, names)| == |names|
    ensures forall k :: 0 <= k < |names| ==>
      ResolveBones(ts, names)[k] == FirstNamed(ts, names[k]).value
  {
    if |names| > 0 {
      var init := names[..|names| - 1];
      ResolveBonesAllFound(ts, init);
    }
  }

  /** The bone list of the combined renderer: the resolved bones of every fragment, in order. */
  function Bones(ts: seq<Transform>, fs: seq<Fragment>): seq<Transform> {
    Flatten(seq(|fs|, i requires 0 <= i < |fs| => ResolveBones(ts, fs[i].boneNames)))
  }

  /** The number of bone names over all fragments. */
  function BoneNameCount(fs: seq<Fragment>): nat {
    if |fs| == 0 then 0 else BoneNameCount(fs[..|fs| - 1]) + |fs[|fs| - 1].boneNames|
  }

  /** There are never more bones than bone names, and every bone is a transform of
      the hierarchy carrying a name some fragment asked for. */
  lemma {:induction false} BonesSound(ts: seq<Transform>, fs: seq<Fragment>)
    ensures |Bones(ts, fs)| <= BoneNameCount(fs)
    ensures forall b :: b in Bones(ts, fs) ==> b in ts && exists i :: 0 <= i < |fs| && b.name in fs[i].boneNames
  {
    if |fs| > 0 {
      var n := |fs|;
      var xss := seq(n, i requires 0 <= i < n => ResolveBones(ts, fs[i].boneNames));
      var init := fs[..n - 1];
      BonesSound(ts, init);
      assert xss[..n - 1] == seq(n - 1, i requires 0 <= i < n - 1 => ResolveBones(ts, init[i].boneNames));
      ResolveBonesSound(ts, fs[n - 1].boneNames);
      forall b | b in Bones(ts, fs)
        ensures b in ts && exists i :: 0 <= i < n && b.name in fs[i].boneNames
      {
        if b in Bones(ts, init) {
          var i :| 0 <= i < n - 1 && b.name in init[i].boneNames;
          assert init[i] == fs[i];
        } else {
          assert b in xss[n - 1];
        }
      }
    }
  }

  // ----- one more fragment: what each loop iteration of Generate appends -----

  lemma CombineEntriesSnoc(fs: seq<Fragment>, f: Fragment)
    ensures CombineEntries(fs + [f]) == CombineEntries(fs) + SubMeshes(f.mesh)
  {
    var gs := fs + [f];
    var xss := seq(|gs|, i requires 0 <= i < |gs| => SubMeshes(gs[i].mesh));
    assert xss[..|fs|] == seq(|fs|, i requires 0 <= i < |fs| => SubMeshes(fs[i].mesh));
  }

  lemma MaterialsSnoc(fs: seq<Fragment>, f: Fragment)
    ensures Materials(fs + [f]) == Materials(fs) + f.materials
  {
    var gs := fs + [f];
    var xss := seq(|gs|, i requires 0 <= i < |gs| => gs[i].materials);
    assert xss[..|fs|] == seq(|fs|, i requires 0 <= i < |fs| => fs[i].materials);
  }

  lemma BonesSnoc(ts: seq<Transform>, fs: seq<Fragment>, f: Fragment)
    ensures Bones(ts, fs + [f]) == Bones(ts, fs) + ResolveBones(ts, f.boneNames)
  {
    var gs := fs + [f];
    var xss := seq(|gs|, i requires 0 <= i < |gs| => ResolveBones(ts, gs[i].boneNames));
    assert xss[..|fs|] == seq(|fs|, i requires 0 <= i < |fs| => ResolveBones(ts, fs[i].boneNames));
  }

  lemma ResolveBonesSnoc(ts: seq<Transform>, names: seq<string>, j: nat)
    requires j < |names|
    ensures ResolveBones(ts, names[..j + 1]) == ResolveBones(ts, names[..j]) +
      (var found := FirstNamed(ts, names[j]); if found.Some? then [found.value] else [])
  {
    assert names[..j + 1][..j] == names[..j];
  }
}
