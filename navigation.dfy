/** Cyclic navigation over an ordered list (ChangeCharacter over the character
    list, ChangeElement over one category's elements): find the current item, then
    move one place forwards or backwards, wrapping at both ends. */
module Navigation {
  import opened Seqs
  import opened Outcomes

  /** The neighbour of position `i`: the next one, or the first after the last;
      the previous one, or the last before the first. */
  function Adjacent<T>(s: seq<T>, i: nat, next: bool): T
    requires i < |s|
  {
    if next then (if i < |s| - 1 then s[i + 1] else s[0])
    else (if i > 0 then s[i - 1] else s[|s| - 1])
  }

  lemma ModBelow(x: int, n: int)
    requires 0 <= x < n
    ensures x % n == x
  {
  }

  lemma ModOnce(x: int, n: int)
    requires 0 < n <= x < 2 * n
    ensures x % n == x - n
  {
  }

  lemma MulAtLeast(n: nat, d: nat)
    requires d >= 1
    ensures n * d >= n
  {
    if d > 1 {
      MulAtLeast(n, d - 1);
      assert n * d == n * (d - 1) + n;
    }
  }

  /** The remainder is the only r in [0, n) with x == n * q + r. */
  lemma ModUnique(x: int, n: int, q: int, r: int)
    requires 0 <= r < n && x == n * q + r
    ensures x % n == r
  {
    var q', r' := x / n, x % n;
    assert x == n * q' + r';
    assert n * (q - q') == r' - r by {
      assert n * (q - q') == n * q - n * q';
    }
    if q > q' {
      MulAtLeast(n, q - q');
    } else if q < q' {
      MulAtLeast(n, q' - q);
    }
  }

  /** Taking the remainder before adding one changes nothing once the remainder is
      taken again. */
  lemma ModSucc(x: int, n: int)
    requires 0 <= x && 0 < n
    ensures (x % n + 1) % n == (x + 1) % n
  {
    var q, r := x / n, x % n;
    assert x == n * q + r && 0 <= r < n;
    if r + 1 < n {
      ModBelow(r + 1, n);
      ModUnique(x + 1, n, q, r + 1);
    } else {
      ModOnce(r + 1, n);
      assert x + 1 == n * (q + 1) + 0;
      ModUnique(x + 1, n, q + 1, 0);
    }
  }

  /** The same neighbour by modular arithmetic on the index. */
  lemma AdjacentIsModular<T>(s: seq<T>, i: nat)
    requires i < |s|
    ensures Adjacent(s, i, true) == s[(i + 1) % |s|]
    ensures Adjacent(s, i, false) == s[(i - 1 + |s|) % |s|]
  {
    var n := |s|;
    if i < n - 1 {
      ModBelow(i + 1, n);
    } else {
      ModOnce(i + 1, n);
    }
    if i > 0 {
      ModOnce(i - 1 + n, n);
    } else {
      ModBelow(i - 1 + n, n);
    }
  }

  /** The neighbour of the first occurrence of `x`, or None when `x` does not occur. */
  function Step<T(==)>(s: seq<T>, x: T, next: bool): (r: Option<T>)
    ensures r.None? <==> x !in s
  {
    var i := IndexOf(s, x);
    if i < 0 then None else Some(Adjacent(s, i, next))
  }

  /** The search loop of ChangeCharacter and ChangeElement: scan for the first
      position holding `x`, take its neighbour and stop. */
  method FindAdjacent<T(==)>(s: seq<T>, x: T, next: bool) returns (r: Option<T>)
    ensures r == Step(s, x, next)
  {
    r := None;
    var i := 0;
    while i < |s|
      invariant 0 <= i <= |s|
      invariant x !in s[..i]
    {
      if s[i] != x {
        assert s[..i + 1] == s[..i] + [s[i]];
        i := i + 1;
        continue;
      }
      assert IndexOf(s, x) == i by {
        IndexOfFirst(s, x, i);
      }
      if next {
        r := Some(if i < |s| - 1 then s[i + 1] else s[0]);
      } else {
        r := Some(if i > 0 then s[i - 1] else s[|s| - 1]);
      }
      return;
    }
    assert s[..i] == s;
  }

  lemma IndexOfFirst<T>(s: seq<T>, x: T, i: nat)
    requires i < |s| && s[i] == x && x !in s[..i]
    ensures IndexOf(s, x) == i
  {
  }

  /** With distinct items, stepping forwards and then backwards returns to the start,
      and so does backwards then forwards. */
  lemma StepThereAndBack<T>(s: seq<T>, x: T, next: bool)
    requires Distinct(s) && x in s
    ensures Step(s, x, next).Some?
    ensures Step(s, Step(s, x, next).value, !next) == Some(x)
  {
    var i := IndexOf(s, x);
    var n := |s|;
    var j := if next then (i + 1) % n else (i - 1 + n) % n;
    AdjacentIsModular(s, i);
    IndexOfDistinct(s, j);
    AdjacentIsModular(s, j);
    if next {
      if i < n - 1 { ModBelow(i + 1, n); } else { ModOnce(i + 1, n); }
      if j > 0 { ModOnce(j - 1 + n, n); } else { ModBelow(j - 1 + n, n); }
    } else {
      if i > 0 { ModOnce(i - 1 + n, n); } else { ModBelow(i - 1 + n, n); }
      if j < n - 1 { ModBelow(j + 1, n); } else { ModOnce(j + 1, n); }
    }
  }

  /** `x` after `k` applications of `step`, or None once a step finds nothing. */
  function Iterate<T>(step: T -> Option<T>, x: T, k: nat): Option<T> {
    if k == 0 then Some(x)
    else
      var p := Iterate(step, x, k - 1);
      if p.None? then None else step(p.value)
  }

  /** One forward step (ChangeCharacter(true) on the character list), as a function
      of the current item. */
  function Forward<T(==)>(s: seq<T>): T -> Option<T> {
    y => Step(s, y, true)
  }

  /** Steps compose: `a` steps to `y` followed by `b` steps to `z` are `a + b` steps to `z`. */
  lemma {:induction false} IterateJoin<T>(step: T -> Option<T>, x: T, a: nat, y: T, b: nat, z: T)
    requires Iterate(step, x, a) == Some(y) && Iterate(step, y, b) == Some(z)
    ensures Iterate(step, x, a + b) == Some(z)
    decreases b
  {
    if b > 0 {
      var w := Iterate(step, y, b - 1).value;
      IterateJoin(step, x, a, y, b - 1, w);
      assert a + b - 1 == a + (b - 1);
    }
  }

  /** `step` moves from every item of `s` to the one after it, and from the last
      back to the first. */
  ghost predicate Cycles<T>(step: T -> Option<T>, s: seq<T>) {
    |s| > 0 &&
    (forall j :: 0 <= j < |s| - 1 ==> step(s[j]) == Some(s[j + 1])) &&
    step(s[|s| - 1]) == Some(s[0])
  }

  lemma {:induction false} IterateAlong<T>(step: T -> Option<T>, s: seq<T>, i: nat, j: nat)
    requires Cycles(step, s) && i <= j < |s|
    ensures Iterate(step, s[i], j - i) == Some(s[j])
    decreases j - i
  {
    if i < j {
      IterateAlong(step, s, i, j - 1);
      assert step(s[j - 1]) == Some(s[j]);
    }
  }

  /** Going round a cycle once, from any position, comes back to it. */
  lemma Around<T>(step: T -> Option<T>, s: seq<T>, i: nat)
    requires Cycles(step, s) && i < |s|
    ensures Iterate(step, s[i], |s|) == Some(s[i])
  {
    var n := |s|;
    // to the last position, over the end to the first, and on to position i
    IterateAlong(step, s, i, n - 1);
    IterateJoin(step, s[i], n - 1 - i, s[n - 1], 1, s[0]);
    IterateAlong(step, s, 0, i);
    IterateJoin(step, s[i], n - i, s[0], i, s[i]);
  }

  /** With distinct items, forward steps go round the list. */
  lemma ForwardCycles<T>(s: seq<T>)
    requires Distinct(s) && |s| > 0
    ensures Cycles(Forward(s), s)
  {
    forall j | 0 <= j < |s|
      ensures Forward(s)(s[j]) == Some(Adjacent(s, j, true))
    {
      IndexOfDistinct(s, j);
    }
  }

  /** With distinct items, |s| forward steps come back to where they started. */
  lemma FullCircle<T>(s: seq<T>, x: T)
    requires Distinct(s) && x in s
    ensures Iterate(Forward(s), x, |s|) == Some(x)
  {
    ForwardCycles(s);
    Around(Forward(s), s, IndexOf(s, x));
  }
}
