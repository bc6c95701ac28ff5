/**
 * The anomaly detector: a rolling-window Z-score test, an EWMA recurrence
 * with a residual test, a split-point change detector, their 2-of-3
 * consensus and the percentile severity ladder.
 *
 * Standard deviations are numpy's population form. A test
 * `|d| / std > t` is stated on the variance with `RatioExceeds`, and
 * `std == 0` is `variance == 0`.
 */
module AnomalyDetection {
  import opened Wrappers
  import opened Stats
  import opened Schema

  /** The detector's thresholds, fixed at construction. */
  datatype Config = Config(zScoreThreshold: real, ewmaAlpha: real, ewmaThreshold: real)

  const DefaultConfig: Config := Config(2.5, 0.3, 2.0)
  const DefaultWindowSize: nat := 30
  const DefaultMinSegmentSize: nat := 5
  /** EWMA flags need this many earlier points, and use this many recent residuals. */
  const EwmaHistory: nat := 10
  const ChangePointThreshold: real := 2.0

  // ---------------------------------------------------------------- Z-score

  /** The window at index `i`: up to `w` values ending at, and including, `values[i]`. */
  function ZWindow(values: seq<real>, i: nat, w: nat): seq<real>
    requires i < |values|
  {
    if i < w then values[..i + 1] else values[i - w + 1..i + 1]
  }

  predicate ZFlagAt(values: seq<real>, i: nat, w: nat, t: real)
    requires i < |values|
  {
    var win := ZWindow(values, i, w);
    |win| >= 2 && Variance(win) != 0.0 && RatioExceeds(values[i] - Mean(win), Variance(win), t)
  }

  /** One flag per value; all false for a series shorter than the window. */
  function ZScoreFlags(values: seq<real>, w: nat, t: real): seq<bool> {
    if |values| < w then seq(|values|, _ => false)
    else seq(|values|, i requires 0 <= i < |values| => ZFlagAt(values, i, w, t))
  }

  method DetectZScore(values: seq<real>, windowSize: nat, threshold: real) returns (anomalies: seq<bool>)
    ensures |anomalies| == |values|
    ensures anomalies == ZScoreFlags(values, windowSize, threshold)
  {
    if |values| < windowSize {
      return seq(|values|, _ => false);
    }
    anomalies := [];
    var i := 0;
    while i < |values|
      invariant 0 <= i <= |values|
      invariant |anomalies| == i
      invariant forall k :: 0 <= k < i ==> anomalies[k] == ZFlagAt(values, k, windowSize, threshold)
    {
      var window := if i < windowSize then values[..i + 1] else values[i - windowSize + 1..i + 1];
      var flag := false;
      if |window| >= 2 {
        var mean := Mean(window);
        var variance := Variance(window);
        if variance != 0.0 {
          flag := RatioExceeds(values[i] - mean, variance, threshold);
        }
      }
      assert window == ZWindow(values, i, windowSize);
      assert flag == ZFlagAt(values, i, windowSize, threshold);
      anomalies := anomalies + [flag];
      i := i + 1;
    }
    ghost var z := ZScoreFlags(values, windowSize, threshold);
    assert |z| == |anomalies| && forall k :: 0 <= k < |z| ==> z[k] == anomalies[k];
  }

  /** The window holds `min(i + 1, w)` values, the last one being `values[i]` itself. */
  lemma ZWindowIncludesCurrent(values: seq<real>, i: nat, w: nat)
    requires i < |values| && w >= 1
    ensures var win := ZWindow(values, i, w);
      |win| == (if i + 1 < w then i + 1 else w) && win[|win| - 1] == values[i]
      && win == values[(if i + 1 < w then 0 else i + 1 - w)..i + 1]
  {
  }

  /**
   * With the standard deviation `s` of the window, a flag is raised exactly
   * when the window has two or more points and `|values[i] - mean| / s`
   * strictly exceeds the threshold; a constant window never flags.
   */
  lemma ZFlagMeaning(values: seq<real>, i: nat, w: nat, t: real, s: real)
    requires i < |values| && |ZWindow(values, i, w)| >= 1
    requires s >= 0.0 && Sq(s) == Variance(ZWindow(values, i, w))
    ensures var win := ZWindow(values, i, w);
      ZFlagAt(values, i, w, t) <==>
        |win| >= 2 && s != 0.0 && Abs(values[i] - Mean(win)) / s > t
    ensures var win := ZWindow(values, i, w);
      (forall k :: 0 <= k < |win| ==> win[k] == Mean(win)) ==> !ZFlagAt(values, i, w, t)
  {
    var win := ZWindow(values, i, w);
    VarianceZeroIffConstant(win);
    PositiveSquare(s);
    if s != 0.0 {
      RatioExceedsMeaning(values[i] - Mean(win), Variance(win), s, t);
    }
  }

  // ------------------------------------------------------------------- EWMA

  /** One EWMA step: `alpha * v + (1 - alpha) * prev`. */
  function Blend(alpha: real, v: real, prev: real): real {
    alpha * v + (1.0 - alpha) * prev
  }

  /** `ewma[0] = values[0]`, `ewma[i] = alpha * values[i] + (1 - alpha) * ewma[i - 1]`. */
  function Ewma(values: seq<real>, alpha: real): (e: seq<real>)
    ensures |e| == |values|
  {
    if |values| <= 1 then values
    else
      var p := Ewma(values[..|values| - 1], alpha);
      p + [Blend(alpha, values[|values| - 1], p[|p| - 1])]
  }

  lemma {:induction false} EwmaPrefix(values: seq<real>, alpha: real, k: nat)
    requires k <= |values|
    ensures Ewma(values[..k], alpha) == Ewma(values, alpha)[..k]
    decreases |values|
  {
    if k < |values| {
      var init := values[..|values| - 1];
      EwmaPrefix(init, alpha, k);
      assert init[..k] == values[..k];
    } else {
      assert values[..k] == values;
    }
  }

  lemma {:induction false} EwmaRecurrence(values: seq<real>, alpha: real, i: nat)
    requires 0 < i < |values|
    ensures Ewma(values, alpha)[0] == values[0]
    ensures Ewma(values, alpha)[i] == Blend(alpha, values[i], Ewma(values, alpha)[i - 1])
  {
    var e := Ewma(values, alpha);
    EwmaPrefix(values, alpha, i + 1);
    EwmaPrefix(values, alpha, i);
    EwmaPrefix(values, alpha, 1);
    assert values[..i + 1][..i] == values[..i];
    assert values[..1] == [values[0]];
  }

  lemma BlendBetween(alpha: real, v: real, prev: real, lo: real, hi: real)
    requires 0.0 <= alpha <= 1.0 && lo <= v <= hi && lo <= prev <= hi
    ensures lo <= Blend(alpha, v, prev) <= hi
  {
    MulNonNegative(alpha, v - lo);
    MulNonNegative(1.0 - alpha, prev - lo);
    MulNonNegative(alpha, hi - v);
    MulNonNegative(1.0 - alpha, hi - prev);
    calc {
      Blend(alpha, v, prev) - lo;
      == alpha * (v - lo) + (1.0 - alpha) * (prev - lo);
    }
    calc {
      hi - Blend(alpha, v, prev);
      == alpha * (hi - v) + (1.0 - alpha) * (hi - prev);
    }
  }

  /** The average stays within any bounds of the values when `0 <= alpha <= 1`. */
  lemma {:induction false} EwmaBounded(values: seq<real>, alpha: real, lo: real, hi: real)
    requires 0.0 <= alpha <= 1.0
    requires forall k :: 0 <= k < |values| ==> lo <= values[k] <= hi
    ensures forall k :: 0 <= k < |values| ==> lo <= Ewma(values, alpha)[k] <= hi
  {
    if |values| > 1 {
      var init := values[..|values| - 1];
      EwmaBounded(init, alpha, lo, hi);
      var p := Ewma(init, alpha);
      var v := values[|values| - 1];
      var prev := p[|p| - 1];
      BlendBetween(alpha, v, prev, lo, hi);
      var e := Ewma(values, alpha);
      forall k | 0 <= k < |values| ensures lo <= e[k] <= hi {
        if k < |values| - 1 { assert e[k] == p[k]; }
      }
    }
  }

  /**
   * The flag at index `i`: false during the first ten points; otherwise the
   * last ten residuals `values[k] - ewma[k]` must vary, and
   * `|values[i] - ewma[i]| / std(residuals)` must exceed the threshold.
   */
  predicate EwmaFlagAt(values: seq<real>, alpha: real, t: real, i: nat)
    requires i < |values|
  {
    if i < EwmaHistory then false
    else
      var e := Ewma(values[..i + 1], alpha);
      var residuals := seq(i + 1, k requires 0 <= k <= i => values[k] - e[k]);
      var recent := residuals[i + 1 - EwmaHistory..];
      Variance(recent) != 0.0 && RatioExceeds(values[i] - e[i], Variance(recent), t)
  }

  function EwmaFlags(values: seq<real>, alpha: real, t: real): seq<bool> {
    seq(|values|, i requires 0 <= i < |values| => EwmaFlagAt(values, alpha, t, i))
  }

  method DetectEwma(values: seq<real>, alpha: real, threshold: real) returns (ewmaValues: seq<real>, anomalies: seq<bool>)
    ensures |ewmaValues| == |values| && |anomalies| == |values|
    ensures ewmaValues == Ewma(values, alpha)
    ensures anomalies == EwmaFlags(values, alpha, threshold)
  {
    if |values| == 0 {
      return [], [];
    }
    var ewma := values[0];
    ewmaValues := [ewma];
    anomalies := [false];
    assert values[..1] == [values[0]];
    var i := 1;
    while i < |values|
      invariant 1 <= i <= |values|
      invariant ewmaValues == Ewma(values[..i], alpha)
      invariant ewma == ewmaValues[i - 1]
      invariant |anomalies| == i
      invariant forall k :: 0 <= k < i ==> anomalies[k] == EwmaFlagAt(values, alpha, threshold, k)
    {
      ewma := Blend(alpha, values[i], ewma);
      ewmaValues := ewmaValues + [ewma];
      ghost var prefix := values[..i + 1];
      assert prefix[..|prefix| - 1] == values[..i];
      assert ewmaValues == Ewma(prefix, alpha);
      if i < EwmaHistory {
        anomalies := anomalies + [false];
      } else {
        var residuals := seq(i + 1, k requires 0 <= k <= i => values[k] - ewmaValues[k]);
        var recent := residuals[i + 1 - EwmaHistory..];
        var variance := Variance(recent);
        if variance == 0.0 {
          anomalies := anomalies + [false];
        } else {
          anomalies := anomalies + [RatioExceeds(values[i] - ewma, variance, threshold)];
        }
      }
      i := i + 1;
    }
    assert values[..i] == values;
  }

  /** The residuals `values[k] - e[k]` of the ten points ending at index `i`. */
  function RecentResiduals(values: seq<real>, e: seq<real>, i: nat): (r: seq<real>)
    requires EwmaHistory <= i + 1 && i < |values| && |e| == |values|
    ensures |r| == EwmaHistory
  {
    seq(EwmaHistory, j requires 0 <= j < EwmaHistory => values[i + 1 - EwmaHistory + j] - e[i + 1 - EwmaHistory + j])
  }

  /** The residuals the flag at `i` looks at are those of the whole series' averages. */
  lemma RecentResidualsOfPrefix(values: seq<real>, alpha: real, i: nat)
    requires EwmaHistory <= i < |values|
    ensures var ep := Ewma(values[..i + 1], alpha);
      ep[i] == Ewma(values, alpha)[i] &&
      seq(i + 1, k requires 0 <= k <= i => values[k] - ep[k])[i + 1 - EwmaHistory..]
        == RecentResiduals(values, Ewma(values, alpha), i)
  {
    EwmaPrefix(values, alpha, i + 1);
    var e := Ewma(values, alpha);
    var ep := Ewma(values[..i + 1], alpha);
    var residuals := seq(i + 1, k requires 0 <= k <= i => values[k] - ep[k]);
    var recent := RecentResiduals(values, e, i);
    forall j | 0 <= j < EwmaHistory
      ensures residuals[i + 1 - EwmaHistory..][j] == recent[j]
    {
      assert ep[i + 1 - EwmaHistory + j] == e[i + 1 - EwmaHistory + j];
    }
    assert residuals[i + 1 - EwmaHistory..] == recent;
  }

  /**
   * The flag compares `values[i]` with the returned average at the same
   * index, never flags before index 10 and never flags when the last ten
   * residuals are all equal.
   */
  lemma EwmaFlagFacts(values: seq<real>, alpha: real, t: real, i: nat)
    requires i < |values|
    ensures i < EwmaHistory ==> !EwmaFlagAt(values, alpha, t, i)
    ensures i >= EwmaHistory ==>
      var e := Ewma(values, alpha);
      var recent := RecentResiduals(values, e, i);
      (EwmaFlagAt(values, alpha, t, i) <==>
        Variance(recent) != 0.0 && RatioExceeds(values[i] - e[i], Variance(recent), t))
  {
    if i >= EwmaHistory {
      RecentResidualsOfPrefix(values, alpha, i);
    }
  }

  // ---------------------------------------------------------- change points

  /**
   * Index `i` splits the series into `values[..i]` and `values[i..]`; it is a
   * change point when both segments vary and the difference of their means
   * exceeds twice the pooled standard deviation `sqrt((std1² + std2²) / 2)`.
   * An empty first segment gives NaN statistics in the source, which never
   * pass the test.
   */
  predicate ChangePointAt(values: seq<real>, i: nat)
    requires i < |values|
  {
    0 < i &&
    var s1, s2 := values[..i], values[i..];
    var v1, v2 := Variance(s1), Variance(s2);
    v1 != 0.0 && v2 != 0.0 && RatioExceeds(Mean(s1) - Mean(s2), (v1 + v2) / 2.0, ChangePointThreshold)
  }

  function ChangePointFlags(values: seq<real>): (f: seq<bool>)
    ensures |f| == |values|
  {
    seq(|values|, i requires 0 <= i < |values| => ChangePointAt(values, i))
  }

  lemma ChangePointFlagAt(values: seq<real>, i: nat)
    requires i < |values|
    ensures ChangePointFlags(values)[i] == ChangePointAt(values, i)
  {
  }

  /** The marked indices among `m <= i < hi`, in increasing order. */
  function MarkedBelow(flags: seq<bool>, m: nat, hi: nat): seq<nat>
    requires hi <= |flags|
  {
    if hi <= m then []
    else MarkedBelow(flags, m, hi - 1) + (if flags[hi - 1] then [hi - 1] else [])
  }

  function ChangePoints(values: seq<real>, m: nat): seq<nat> {
    if |values| < 2 * m then [] else MarkedBelow(ChangePointFlags(values), m, |values| - m)
  }

  method DetectChangePoints(values: seq<real>, minSegmentSize: nat) returns (changePoints: seq<nat>)
    ensures changePoints == ChangePoints(values, minSegmentSize)
  {
    if |values| < 2 * minSegmentSize {
      return [];
    }
    changePoints := [];
    var i := minSegmentSize;
    while i < |values| - minSegmentSize
      invariant minSegmentSize <= i <= |values| - minSegmentSize
      invariant changePoints == MarkedBelow(ChangePointFlags(values), minSegmentSize, i)
    {
      var segment1, segment2 := values[..i], values[i..];
      // The source's guard on the segment lengths never fires inside this
      // range, and a positive variance on both sides makes the pooled
      // deviation positive, so neither check is repeated here.
      if i > 0 {
        var var1, var2 := Variance(segment1), Variance(segment2);
        if var1 != 0.0 && var2 != 0.0 {
          if RatioExceeds(Mean(segment1) - Mean(segment2), (var1 + var2) / 2.0, ChangePointThreshold) {
            changePoints := changePoints + [i];
          }
        }
      }
      i := i + 1;
    }
  }

  predicate StrictlyIncreasing(r: seq<nat>) {
    forall a, b :: 0 <= a < b < |r| ==> r[a] < r[b]
  }

  lemma MarkedBelowFacts(flags: seq<bool>, m: nat, hi: nat)
    requires hi <= |flags|
    ensures forall c :: c in MarkedBelow(flags, m, hi) <==> m <= c < hi && flags[c]
    ensures StrictlyIncreasing(MarkedBelow(flags, m, hi))
  {
    forall c: nat ensures c in MarkedBelow(flags, m, hi) <==> m <= c < hi && flags[c] {
      MarkedBelowMember(flags, m, hi, c);
    }
    MarkedBelowIncreasing(flags, m, hi);
  }

  lemma {:induction false} MarkedBelowMember(flags: seq<bool>, m: nat, hi: nat, c: nat)
    requires hi <= |flags|
    ensures c in MarkedBelow(flags, m, hi) <==> m <= c < hi && flags[c]
    decreases hi
  {
    if hi > m {
      MarkedBelowMember(flags, m, hi - 1, c);
      var r := MarkedBelow(flags, m, hi - 1);
      var tail := if flags[hi - 1] then [hi - 1] else [];
      assert MarkedBelow(flags, m, hi) == r + tail;
      assert c in r + tail <==> c in r || c in tail;
    }
  }

  lemma {:induction false} MarkedBelowIncreasing(flags: seq<bool>, m: nat, hi: nat)
    requires hi <= |flags|
    ensures StrictlyIncreasing(MarkedBelow(flags, m, hi))
    ensures forall i :: 0 <= i < |MarkedBelow(flags, m, hi)| ==> MarkedBelow(flags, m, hi)[i] < hi
    decreases hi
  {
    if hi > m {
      MarkedBelowIncreasing(flags, m, hi - 1);
      var r := MarkedBelow(flags, m, hi - 1);
      var tail := if flags[hi - 1] then [hi - 1] else [];
      var all := r + tail;
      assert MarkedBelow(flags, m, hi) == all;
      forall a, b | 0 <= a < b < |all| ensures all[a] < all[b] {
        assert all[a] == r[a];
        if b < |r| {
          assert all[b] == r[b];
        }
      }
      forall i | 0 <= i < |all| ensures all[i] < hi {
        if i < |r| {
          assert all[i] == r[i];
        }
      }
    }
  }

  /**
   * Change points: none for a series shorter than two segments; otherwise
   * exactly the indices `m <= i < |values| - m` passing the split test, in
   * strictly increasing order.
   */
  lemma ChangePointsFacts(values: seq<real>, m: nat)
    ensures |values| < 2 * m ==> ChangePoints(values, m) == []
    ensures forall c :: c in ChangePoints(values, m) <==>
      |values| >= 2 * m && m <= c < |values| - m && ChangePointAt(values, c)
    ensures StrictlyIncreasing(ChangePoints(values, m))
  {
    var r := ChangePoints(values, m);
    if |values| >= 2 * m {
      var flags := ChangePointFlags(values);
      MarkedBelowFacts(flags, m, |values| - m);
      forall c ensures c in r <==> m <= c < |values| - m && ChangePointAt(values, c) {
        if m <= c < |values| - m {
          ChangePointFlagAt(values, c);
        }
      }
    }
  }

  // -------------------------------------------------------------- consensus

  function Votes(z: bool, e: bool, b: bool): nat {
    (if z then 1 else 0) + (if e then 1 else 0) + (if b then 1 else 0)
  }

  /** `sum([z, e, b]) >= 2` over `zip` of the three flag lists. */
  function Consensus(z: seq<bool>, e: seq<bool>, b: seq<bool>): (r: seq<bool>)
    ensures |r| == Min3(|z|, |e|, |b|)
    ensures forall i :: 0 <= i < |r| ==> (r[i] <==> (z[i] && e[i]) || (z[i] && b[i]) || (e[i] && b[i]))
  {
    seq(Min3(|z|, |e|, |b|), i requires 0 <= i < Min3(|z|, |e|, |b|) => Votes(z[i], e[i], b[i]) >= 2)
  }

  function Min3(a: nat, b: nat, c: nat): nat {
    if a <= b && a <= c then a else if b <= c then b else c
  }

  /** The change points marked as a flag list of length `n`. */
  function MarkChangePoints(n: nat, changePoints: seq<nat>): seq<bool> {
    seq(n, i => i in changePoints)
  }

  /** `detect_anomalies` on a series already sorted by time: the result for a method name. */
  datatype Detection = Detection(anomalies: seq<bool>, ewmaValues: Option<seq<real>>, methodName: string)

  method DetectAnomalies(values: seq<real>, methodName: string, cfg: Config) returns (r: Result<Detection, string>)
    ensures r.Ok? <==> methodName in ["z_score", "ewma", "bayesian", "combined"]
    ensures r.Err? ==> r.error == "Unknown method: " + methodName
    ensures r.Ok? ==> |r.value.anomalies| == |values| && r.value.methodName == methodName
    ensures methodName == "z_score" ==>
      r == Ok(Detection(ZScoreFlags(values, DefaultWindowSize, cfg.zScoreThreshold), None, methodName))
    ensures methodName == "ewma" ==>
      r == Ok(Detection(EwmaFlags(values, cfg.ewmaAlpha, cfg.ewmaThreshold), Some(Ewma(values, cfg.ewmaAlpha)), methodName))
    ensures methodName == "bayesian" ==>
      r == Ok(Detection(MarkChangePoints(|values|, ChangePoints(values, DefaultMinSegmentSize)), None, methodName))
    ensures methodName == "combined" ==>
      r == Ok(Detection(Consensus(ZScoreFlags(values, DefaultWindowSize, cfg.zScoreThreshold),
                                  EwmaFlags(values, cfg.ewmaAlpha, cfg.ewmaThreshold),
                                  MarkChangePoints(|values|, ChangePoints(values, DefaultMinSegmentSize))),
                        None, methodName))
  {
    if methodName == "z_score" {
      var anomalies := DetectZScore(values, DefaultWindowSize, cfg.zScoreThreshold);
      r := Ok(Detection(anomalies, None, methodName));
    } else if methodName == "ewma" {
      var ewmaValues, anomalies := DetectEwma(values, cfg.ewmaAlpha, cfg.ewmaThreshold);
      r := Ok(Detection(anomalies, Some(ewmaValues), methodName));
    } else if methodName == "bayesian" {
      var cps := DetectChangePoints(values, DefaultMinSegmentSize);
      r := Ok(Detection(MarkChangePoints(|values|, cps), None, methodName));
    } else if methodName == "combined" {
      var z := DetectZScore(values, DefaultWindowSize, cfg.zScoreThreshold);
      var ewmaValues, e := DetectEwma(values, cfg.ewmaAlpha, cfg.ewmaThreshold);
      var cps := DetectChangePoints(values, DefaultMinSegmentSize);
      r := Ok(Detection(Consensus(z, e, MarkChangePoints(|values|, cps)), None, methodName));
    } else {
      r := Err("Unknown method: " + methodName);
    }
  }

  // --------------------------------------------------------------- severity

  /** Severity of an anomalous value from its percentile among all values. */
  function AnomalySeverity(percentile: real): Severity {
    if percentile < 5.0 then High else if percentile < 10.0 then Medium else Low
  }

  /** A lower percentile is never a milder severity; HIGH exactly below 5, LOW exactly from 10. */
  lemma AnomalySeverityMonotone(p: real, q: real)
    requires p <= q
    ensures SeverityRank(AnomalySeverity(p)) >= SeverityRank(AnomalySeverity(q))
    ensures AnomalySeverity(p) == High <==> p < 5.0
    ensures AnomalySeverity(q) == Low <==> q >= 10.0
  {
  }
}
