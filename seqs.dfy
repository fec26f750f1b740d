/** Sequence helpers shared by the model: first-occurrence search, distinctness,
    and ordered association lists (the model of a .NET Dictionary whose keys are
    only ever added, so that it enumerates in insertion order). */
module Seqs {

  /** Index of the first occurrence of `x` in `s`, or -1 (List.IndexOf, String.IndexOf). */
  function IndexOf<T(==)>(s: seq<T>, x: T): (i: int)
    ensures -1 <= i < |s|
    ensures i == -1 <==> x !in s
    ensures 0 <= i ==> s[i] == x && x !in s[..i]
  {
    if |s| == 0 then -1
    else if s[0] == x then 0
    else
      var j := IndexOf(s[1..], x);
      assert s[1..][..if j < 0 then 0 else j] == s[1..if j < 0 then 1 else j + 1];
      if j < 0 then -1 else j + 1
  }

  /** Index of the last occurrence of `x` in `s`, or -1 (String.LastIndexOf). */
  function LastIndexOf<T(==)>(s: seq<T>, x: T): (i: int)
    ensures -1 <= i < |s|
    ensures i == -1 <==> x !in s
    ensures 0 <= i ==> s[i] == x && x !in s[i + 1..]
  {
    if |s| == 0 then -1
    else if s[|s| - 1] == x then |s| - 1
    else
      assert s[..|s| - 1] + [s[|s| - 1]] == s;
      LastIndexOf(s[..|s| - 1], x)
  }

  ghost predicate Distinct<T>(s: seq<T>) {
    forall i, j :: 0 <= i < j < |s| ==> s[i] != s[j]
  }

  lemma IndexOfDistinct<T>(s: seq<T>, i: nat)
    requires Distinct(s) && i < |s|
    ensures IndexOf(s, s[i]) == i
  {
  }

  /** The elements of `s` in order of first occurrence, without repetition. */
  function Dedup<T(==)>(s: seq<T>): (r: seq<T>)
    ensures forall i :: 0 <= i < |r| ==> r[i] in s
    ensures forall i :: 0 <= i < |s| ==> s[i] in r
    ensures Distinct(r)
  {
    if |s| == 0 then []
    else
      var r := Dedup(s[..|s| - 1]);
      assert s == s[..|s| - 1] + [s[|s| - 1]];
      if s[|s| - 1] in r then r else r + [s[|s| - 1]]
  }

  // ----- ordered association lists -----

  function Keys<V>(t: seq<(string, V)>): (ks: seq<string>)
    ensures |ks| == |t|
    ensures forall i :: 0 <= i < |t| ==> ks[i] == t[i].0
  {
    seq(|t|, i requires 0 <= i < |t| => t[i].0)
  }

  /** Position of `k` among the keys of `t`, or -1 (Dictionary.ContainsKey when >= 0). */
  function KeyIndex<V>(t: seq<(string, V)>, k: string): (i: int)
    ensures -1 <= i < |t|
    ensures i == -1 <==> k !in Keys(t)
    ensures 0 <= i ==> t[i].0 == k
  {
    var i := IndexOf(Keys(t), k);
    i
  }

  /** The dictionary indexer's setter: replaces the value of an existing key in
      place, or appends a new key at the end. */
  function Put<V>(t: seq<(string, V)>, k: string, v: V): (r: seq<(string, V)>)
    ensures Keys(r) == if k in Keys(t) then Keys(t) else Keys(t) + [k]
    ensures KeyIndex(r, k) >= 0 && r[KeyIndex(r, k)].1 == v
    ensures forall j :: 0 <= j < |t| && t[j].0 != k ==> r[j] == t[j]
  {
    var i := KeyIndex(t, k);
    var r := if i < 0 then t + [(k, v)] else t[i := (k, v)];
    assert Keys(r) == if k in Keys(t) then Keys(t) else Keys(t) + [k];
    r
  }

  lemma UpdateLast<T>(s: seq<T>, x: T, y: T)
    ensures (s + [x])[|s| := y] == s + [y]
  {
  }

  lemma IndexOfAppend<T>(s: seq<T>, x: T, y: T)
    requires x != y
    ensures IndexOf(s + [y], x) == IndexOf(s, x)
  {
    if |s| > 0 {
      assert (s + [y])[1..] == s[1..] + [y];
      IndexOfAppend(s[1..], x, y);
    }
  }

  lemma KeyIndexAppend<V>(t: seq<(string, V)>, k: string, k': string, v: V)
    requires k != k'
    ensures KeyIndex(t + [(k', v)], k) == KeyIndex(t, k)
  {
    assert Keys(t + [(k', v)]) == Keys(t) + [k'];
    IndexOfAppend(Keys(t), k, k');
  }

  /** Replacing the value stored under an existing key leaves every key's position alone. */
  lemma KeyIndexUpdate<V>(t: seq<(string, V)>, i: nat, v: V, k: string)
    requires i < |t|
    ensures KeyIndex(t[i := (t[i].0, v)], k) == KeyIndex(t, k)
  {
    assert Keys(t[i := (t[i].0, v)]) == Keys(t);
  }
}
