/** The .NET string operations the core relies on, over `string` (= seq<char>). */
module Text {
  import opened Seqs

  /** String.ToLower, restricted to ASCII letters (no culture-specific mapping). */
  function LowerChar(c: char): char {
    if 'A' <= c <= 'Z' then (c as int + 32) as char else c
  }

  function Lower(s: string): string {
    seq(|s|, i requires 0 <= i < |s| => LowerChar(s[i]))
  }

  /** `s` is already in lower case: ToLower leaves it unchanged. */
  ghost predicate IsLower(s: string) {
    forall i :: 0 <= i < |s| ==> !('A' <= s[i] <= 'Z')
  }

  lemma LowerOfLower(s: string)
    requires IsLower(s)
    ensures Lower(s) == s
  {
  }

  lemma LowerPrefix(s: string, p: string)
    requires StartsWith(Lower(s), p)
    ensures IsLower(p)
  {
    assert forall i :: 0 <= i < |p| ==> p[i] == Lower(s)[i];
  }

  lemma LowerAppend(a: string, b: string)
    ensures Lower(a + b) == Lower(a) + Lower(b)
  {
  }

  /** A character that is not an upper-case letter occurs in Lower(s) exactly where it occurs in s. */
  lemma LowerKeepsChar(s: string, c: char)
    requires !('A' <= c <= 'Z') && !('a' <= c <= 'z')
    ensures (c in Lower(s)) <==> (c in s)
  {
    if c in Lower(s) {
      var i :| 0 <= i < |s| && Lower(s)[i] == c;
      assert s[i] == c;
    }
    if c in s {
      var i :| 0 <= i < |s| && s[i] == c;
      assert Lower(s)[i] == c;
    }
  }

  /** String.StartsWith (ordinal). */
  predicate StartsWith(s: string, prefix: string) {
    |prefix| <= |s| && s[..|prefix|] == prefix
  }

  /** String.Contains (ordinal): `part` occurs somewhere in `s`. */
  predicate Contains(s: string, part: string)
    decreases |s|
  {
    StartsWith(s, part) || (|s| > 0 && Contains(s[1..], part))
  }

  lemma ContainsAppendLeft(a: string, b: string, part: string)
    requires Contains(b, part)
    ensures Contains(a + b, part)
    decreases |a|
  {
    if |a| > 0 {
      assert (a + b)[1..] == a[1..] + b;
      ContainsAppendLeft(a[1..], b, part);
    } else {
      assert a + b == b;
    }
  }

  lemma ContainsAppendRight(a: string, b: string, part: string)
    requires Contains(a, part)
    ensures Contains(a + b, part)
    decreases |a|
  {
    if StartsWith(a, part) {
      assert (a + b)[..|part|] == a[..|part|];
    } else {
      assert (a + b)[1..] == a[1..] + b;
      ContainsAppendRight(a[1..], b, part);
    }
  }

  lemma AppendFour(a: string, b: string, c: string, d: string)
    ensures a + b + c + d == (a + b) + (c + d) == a + (b + (c + d))
  {
  }

  lemma ContainsSuffix(a: string, b: string)
    ensures Contains(a + b, b)
  {
    assert StartsWith(b, b);
    ContainsAppendLeft(a, b, b);
  }

  /** The text before the first `sep`, or all of `s`. */
  function Before(s: string, sep: char): (r: string)
    ensures sep !in r
    ensures StartsWith(s, r)
  {
    var i := IndexOf(s, sep);
    if i < 0 then s else s[..i]
  }

  /** The text after the first `sep`, or "" when there is none. */
  function After(s: string, sep: char): string {
    var i := IndexOf(s, sep);
    if i < 0 then "" else s[i + 1..]
  }

  /** String.Split(sep): the pieces between occurrences of `sep`, empty pieces included. */
  function Split(s: string, sep: char): (parts: seq<string>)
    ensures |parts| >= 1
    ensures forall k :: 0 <= k < |parts| ==> sep !in parts[k]
    ensures |parts| == 1 <==> sep !in s
    decreases |s|
  {
    var i := IndexOf(s, sep);
    if i < 0 then [s]
    else [s[..i]] + Split(s[i + 1..], sep)
  }

  /** The inverse of Split: the pieces separated by `sep`. */
  function Join(parts: seq<string>, sep: char): string {
    if |parts| == 0 then ""
    else if |parts| == 1 then parts[0]
    else parts[0] + [sep] + Join(parts[1..], sep)
  }

  lemma JoinCons(first: string, rest: seq<string>, sep: char)
    requires |rest| >= 1
    ensures Join([first] + rest, sep) == first + [sep] + Join(rest, sep)
  {
    assert ([first] + rest)[1..] == rest;
  }

  lemma SplitAround(s: string, i: nat)
    requires i < |s|
    ensures s == s[..i] + [s[i]] + s[i + 1..]
  {
  }

  lemma SplitStep(s: string, sep: char)
    requires sep in s
    ensures Split(s, sep) == [s[..IndexOf(s, sep)]] + Split(s[IndexOf(s, sep) + 1..], sep)
  {
  }

  /** Joining the pieces with the separator gives back the string. */
  lemma {:induction false} JoinSplit(s: string, sep: char)
    ensures Join(Split(s, sep), sep) == s
    decreases |s|
  {
    var i := IndexOf(s, sep);
    if i >= 0 {
      var head, tail := s[..i], s[i + 1..];
      SplitStep(s, sep);
      JoinSplit(tail, sep);
      JoinCons(head, Split(tail, sep), sep);
      SplitAround(s, i);
    }
  }

  lemma {:induction false} SplitJoin(parts: seq<string>, sep: char)
    requires |parts| >= 1
    requires forall k :: 0 <= k < |parts| ==> sep !in parts[k]
    ensures Split(Join(parts, sep), sep) == parts
    decreases |parts|
  {
    if |parts| > 1 {
      var s := Join(parts, sep);
      assert s == parts[0] + [sep] + Join(parts[1..], sep);
      assert s[..|parts[0]|] == parts[0];
      assert s[|parts[0]|] == sep;
      assert IndexOf(s, sep) == |parts[0]|;
      assert s[|parts[0]| + 1..] == Join(parts[1..], sep);
      SplitJoin(parts[1..], sep);
    }
  }

  lemma SplitFirstTwo(s: string, sep: char)
    requires sep in s
    ensures Split(s, sep)[0] == Before(s, sep)
    ensures Split(s, sep)[1] == Before(After(s, sep), sep)
  {
  }

  lemma SplitFirst(s: string, sep: char)
    ensures Split(s, sep)[0] == Before(s, sep)
  {
  }

  /** String.Replace(pattern, ""): every non-overlapping occurrence of `pattern`,
      scanning left to right, removed. */
  function RemoveAll(s: string, pattern: string): string
    requires |pattern| > 0
    decreases |s|
  {
    if |s| < |pattern| then s
    else if s[..|pattern|] == pattern then RemoveAll(s[|pattern|..], pattern)
    else [s[0]] + RemoveAll(s[1..], pattern)
  }

  /** When the first character of `pattern` never occurs in `s`, the only occurrence
      of `pattern` in `s + pattern` is the final one. */
  lemma {:induction false} RemoveAllAppended(s: string, pattern: string)
    requires |pattern| > 0 && pattern[0] !in s
    ensures RemoveAll(s + pattern, pattern) == s
    decreases |s|
  {
    var t := s + pattern;
    if |s| == 0 {
      assert t == pattern;
      assert t[|pattern|..] == [];
    } else {
      assert t[0] == s[0] != pattern[0];
      assert t[..|pattern|] != pattern;
      assert t[1..] == s[1..] + pattern;
      RemoveAllAppended(s[1..], pattern);
    }
  }

  /** FileInfo.Name: the part of a '/'-separated path after its last '/'. */
  function FileName(path: string): (name: string)
    ensures '/' !in name
  {
    path[LastIndexOf(path, '/') + 1..]
  }

  /** The file name of a name put after a directory that ends in '/' (or is empty)
      is that name. */
  lemma FileNameInDir(dir: string, name: string)
    requires dir == "" || dir[|dir| - 1] == '/'
    requires '/' !in name
    ensures FileName(dir + name) == name
  {
    var path := dir + name;
    var i := LastIndexOf(path, '/');
    if dir == "" {
      assert path == name;
    } else {
      assert path[|dir| - 1] == '/';
      assert path[|dir|..] == name;
    }
  }
}
