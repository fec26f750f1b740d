/** The download-progress heuristic of the generator (CurrentConfigProgress and
    UpdateAssetbundlesAlreadyDownloaded): progress values are `real`s; the
    float representation of the source is not modelled. */
module Progress {

  /** The sum of progress values, accumulated left to right. */
  function Sum(ps: seq<real>): real {
    if |ps| == 0 then 0.0 else Sum(ps[..|ps| - 1]) + ps[|ps| - 1]
  }

  lemma SumSnoc(ps: seq<real>, p: real)
    ensures Sum(ps + [p]) == Sum(ps) + p
  {
    assert (ps + [p])[..|ps|] == ps;
  }

  /** Each download reports a progress in [0, 1], so the sum of `n` of them is in [0, n]. */
  lemma {:induction false} SumBounds(ps: seq<real>)
    requires forall i :: 0 <= i < |ps| ==> 0.0 <= ps[i] <= 1.0
    ensures 0.0 <= Sum(ps) <= |ps| as real
  {
    if |ps| > 0 {
      SumBounds(ps[..|ps| - 1]);
    }
  }

  /** Progress never goes back, so neither does the sum. */
  lemma {:induction false} SumMonotone(ps: seq<real>, qs: seq<real>)
    requires |ps| == |qs|
    requires forall i :: 0 <= i < |ps| ==> ps[i] <= qs[i]
    ensures Sum(ps) <= Sum(qs)
  {
    if |ps| > 0 {
      SumMonotone(ps[..|ps| - 1], qs[..|qs| - 1]);
    }
  }

  /** CurrentConfigProgress for `count` selected elements (plus the character base),
      the baseline taken at the last configuration change, and the current total. */
  function Ratio(count: nat, baseline: real, total: real): (r: real)
    ensures baseline == count as real + 1.0 ==> r == 1.0
    ensures baseline != count as real + 1.0 ==> r * (count as real + 1.0 - baseline) == total - baseline
  {
    var toDownload := count as real + 1.0 - baseline;
    if toDownload == 0.0 then 1.0 else (total - baseline) / toDownload
  }

  /** Right after a change, before any download has moved, the answer is 0. */
  lemma RatioAtChange(count: nat, baseline: real)
    requires baseline != count as real + 1.0
    ensures Ratio(count, baseline, baseline) == 0.0
  {
  }

  /** Once every download is complete, the answer is 1. */
  lemma RatioComplete(count: nat, baseline: real)
    ensures Ratio(count, baseline, count as real + 1.0) == 1.0
  {
    var d := count as real + 1.0 - baseline;
    if d != 0.0 {
      assert (count as real + 1.0 - baseline) / d == d / d == 1.0;
    }
  }

  /** Between the baseline and completion, the answer runs from 0 to 1. */
  lemma RatioBounds(count: nat, baseline: real, total: real)
    requires 0.0 <= baseline <= total <= count as real + 1.0
    ensures 0.0 <= Ratio(count, baseline, total) <= 1.0
  {
    var d := count as real + 1.0 - baseline;
    if d != 0.0 {
      var q := (total - baseline) / d;
      assert d > 0.0 && q * d == total - baseline;
      assert (q - 1.0) * d == total - baseline - d;
      assert (-q) * d == -(total - baseline);
      NonPositiveFactor(q - 1.0, d);
      NonPositiveFactor(-q, d);
    }
  }

  lemma NonPositiveFactor(x: real, d: real)
    requires d > 0.0 && x * d <= 0.0
    ensures x <= 0.0
  {
  }

  /** The answer is not clamped: a baseline left over from a larger configuration
      (one whose replacement threw before the baseline was retaken) gives 1.5. */
  lemma RatioUnclamped()
    ensures Ratio(0, 2.0, 0.5) == 1.5
  {
  }
}
