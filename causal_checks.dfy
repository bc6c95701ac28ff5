/**
 * Causal-style checks of root-cause analysis: difference-in-differences
 * over four groups, the policy-change windows that feed it, the lagged
 * correlation's short-series rule, attribution scores and the confidence
 * score that combines the evidence.
 *
 * The normal distribution function, the square root and Pearson's test are
 * foreign numerics; they enter as function parameters.
 */
module CausalChecks {
  import opened Wrappers
  import opened Stats

  /** The result dictionary of `diff_in_diff`. */
  datatype DidResult = DidResult(
    didEstimate: real,
    baselineDiff: real,
    treatmentDiff: real,
    baselineBeforeMean: real,
    baselineAfterMean: real,
    treatmentBeforeMean: real,
    treatmentAfterMean: real,
    tStatistic: real,
    pValue: real,
    significant: bool)

  /** Significance level of the two-tailed tests. */
  const Alpha: real := 0.05

  /**
   * The pooled variance `(s1²/n1 + s2²/n2 + s3²/n3 + s4²/n4) / 4` with
   * sample variances; None (pandas' NaN) when a group has a single value.
   */
  function PooledVariance(bb: seq<real>, ba: seq<real>, tb: seq<real>, ta: seq<real>): (v: Option<real>)
    requires |bb| > 0 && |ba| > 0 && |tb| > 0 && |ta| > 0
    ensures v.None? <==> |bb| < 2 || |ba| < 2 || |tb| < 2 || |ta| < 2
  {
    match (SampleVariance(bb), SampleVariance(ba), SampleVariance(tb), SampleVariance(ta))
    case (Some(v1), Some(v2), Some(v3), Some(v4)) =>
      Some((v1 / |bb| as real + v2 / |ba| as real + v3 / |tb| as real + v4 / |ta| as real) / 4.0)
    case _ => None
  }

  /**
   * `diff_in_diff` on the metric values of the four groups. `sqrt` gives the
   * pooled standard error from the pooled variance and `cdf` is the standard
   * normal distribution function; a NaN standard error fails the `> 0` test.
   */
  function DiffInDiff(bb: seq<real>, ba: seq<real>, tb: seq<real>, ta: seq<real>,
                      sqrt: real -> real, cdf: real -> real): (r: DidResult)
    requires |bb| > 0 && |ba| > 0 && |tb| > 0 && |ta| > 0
    ensures r.baselineDiff == Mean(ba) - Mean(bb) && r.treatmentDiff == Mean(ta) - Mean(tb)
    ensures r.didEstimate == (Mean(ta) - Mean(ba)) - (Mean(tb) - Mean(bb))
    ensures r.baselineBeforeMean == Mean(bb) && r.baselineAfterMean == Mean(ba)
    ensures r.treatmentBeforeMean == Mean(tb) && r.treatmentAfterMean == Mean(ta)
    ensures r.significant <==> r.pValue < Alpha
  {
    var baselineDiff := Mean(ba) - Mean(bb);
    var treatmentDiff := Mean(ta) - Mean(tb);
    var did := treatmentDiff - baselineDiff;
    var pooled := PooledVariance(bb, ba, tb, ta);
    var (t, p) :=
      if pooled.Some? && sqrt(pooled.value) > 0.0 then
        var t := did / sqrt(pooled.value);
        (t, 2.0 * (1.0 - cdf(Abs(t))))
      else (0.0, 1.0);
    DidResult(did, baselineDiff, treatmentDiff, Mean(bb), Mean(ba), Mean(tb), Mean(ta), t, p, p < Alpha)
  }

  /**
   * A degenerate standard error (NaN or not positive) gives t = 0, p = 1
   * and no significance; otherwise t times the standard error is the
   * estimate and p is the two-tailed normal tail of |t|.
   */
  lemma DiffInDiffStatistic(bb: seq<real>, ba: seq<real>, tb: seq<real>, ta: seq<real>,
                            sqrt: real -> real, cdf: real -> real)
    requires |bb| > 0 && |ba| > 0 && |tb| > 0 && |ta| > 0
    ensures var r := DiffInDiff(bb, ba, tb, ta, sqrt, cdf);
            var pooled := PooledVariance(bb, ba, tb, ta);
            (pooled.None? || sqrt(pooled.value) <= 0.0 ==> r.tStatistic == 0.0 && r.pValue == 1.0 && !r.significant)
            && (pooled.Some? && sqrt(pooled.value) > 0.0 ==>
                  r.tStatistic * sqrt(pooled.value) == r.didEstimate && r.pValue == 2.0 * (1.0 - cdf(Abs(r.tStatistic))))
  {
    var pooled := PooledVariance(bb, ba, tb, ta);
    if pooled.Some? && sqrt(pooled.value) > 0.0 {
      var r := DiffInDiff(bb, ba, tb, ta, sqrt, cdf);
      var se := sqrt(pooled.value);
      assert r.tStatistic == r.didEstimate / se;
    }
  }

  /** Every value equals the group's mean. */
  predicate Constant(s: seq<real>)
    requires |s| > 0
  {
    forall i :: 0 <= i < |s| ==> s[i] == Mean(s)
  }

  /** A group's term `s²/n` of the pooled variance is non-negative, and zero exactly for a constant group. */
  lemma PooledTerm(g: seq<real>)
    requires |g| >= 2
    ensures SampleVariance(g).Some?
    ensures SampleVariance(g).value / |g| as real >= 0.0
    ensures SampleVariance(g).value / |g| as real == 0.0 <==> Constant(g)
  {
    var ss := SumSq(g, Mean(g));
    SumSqZeroIffConstant(g, Mean(g));
    DivSign(ss, (|g| - 1) as real);
    DivSign(ss / (|g| - 1) as real, |g| as real);
  }

  /**
   * With a square root that is positive exactly on positive numbers, the
   * test is degenerate (t = 0, p = 1) exactly when some group has a single
   * value or every group is constant.
   */
  lemma DiffInDiffDegenerate(bb: seq<real>, ba: seq<real>, tb: seq<real>, ta: seq<real>, sqrt: real -> real)
    requires |bb| > 0 && |ba| > 0 && |tb| > 0 && |ta| > 0
    requires forall x :: x > 0.0 ==> sqrt(x) > 0.0
    requires sqrt(0.0) == 0.0
    ensures PooledVariance(bb, ba, tb, ta).None? || sqrt(PooledVariance(bb, ba, tb, ta).value) <= 0.0
            <==> |bb| < 2 || |ba| < 2 || |tb| < 2 || |ta| < 2
                 || (Constant(bb) && Constant(ba) && Constant(tb) && Constant(ta))
  {
    if |bb| >= 2 && |ba| >= 2 && |tb| >= 2 && |ta| >= 2 {
      PooledTerm(bb);
      PooledTerm(ba);
      PooledTerm(tb);
      PooledTerm(ta);
    }
  }

  /** One merged order/delivery row: order time, policy value (None when no delivery matched) and metric. */
  datatype PolicyRow<V> = PolicyRow(orderTime: int, policy: Option<V>, metric: Option<real>)

  const SecondsPerDay: int := 86400

  /** Metric values of the rows in `[lo, hi)` with the given policy value and a metric present. */
  function Group<V(==)>(rows: seq<PolicyRow<V>>, lo: int, hi: int, value: V): (g: seq<real>)
    ensures |g| <= |rows|
  {
    if |rows| == 0 then []
    else
      var row := rows[|rows| - 1];
      Group(rows[..|rows| - 1], lo, hi, value)
      + (if lo <= row.orderTime < hi && row.policy == Some(value) && row.metric.Some? then [row.metric.value] else [])
  }

  /** A group is non-empty exactly when some row in the window has the policy value and a metric. */
  lemma {:induction false} GroupNonEmpty<V>(rows: seq<PolicyRow<V>>, lo: int, hi: int, value: V)
    ensures |Group(rows, lo, hi, value)| > 0 <==> HasRow(rows, lo, hi, value)
  {
    if |rows| > 0 {
      var init := rows[..|rows| - 1];
      var row := rows[|rows| - 1];
      GroupNonEmpty(init, lo, hi, value);
      assert rows == init + [row];
      if HasRow(rows, lo, hi, value) && !(lo <= row.orderTime < hi && row.policy == Some(value) && row.metric.Some?) {
        var r :| r in rows && lo <= r.orderTime < hi && r.policy == Some(value) && r.metric.Some?;
        assert r in init;
      }
    }
  }

  /**
   * `check_policy_change`: the windows `[date - w, date)` and
   * `[date, date + w)`, each split by the policy value before and after
   * the change, then `diff_in_diff`; an error when a group is empty.
   */
  function CheckPolicyChange<V(==)>(rows: seq<PolicyRow<V>>, changeTime: int, valueBefore: V, valueAfter: V,
                                    windowDays: int, sqrt: real -> real, cdf: real -> real): Result<DidResult, string>
  {
    var w := windowDays * SecondsPerDay;
    var bb := Group(rows, changeTime - w, changeTime, valueBefore);
    var tb := Group(rows, changeTime - w, changeTime, valueAfter);
    var ba := Group(rows, changeTime, changeTime + w, valueBefore);
    var ta := Group(rows, changeTime, changeTime + w, valueAfter);
    CompareGroups(bb, ba, tb, ta, sqrt, cdf)
  }

  /** The emptiness checks on the four groups, then `diff_in_diff`. */
  function CompareGroups(bb: seq<real>, ba: seq<real>, tb: seq<real>, ta: seq<real>,
                         sqrt: real -> real, cdf: real -> real): (r: Result<DidResult, string>)
    ensures r.Ok? <==> |bb| > 0 && |tb| > 0 && |ba| > 0 && |ta| > 0
    ensures |bb| == 0 || |ba| == 0 ==> r == Err("Insufficient baseline data")
    ensures |bb| > 0 && |ba| > 0 && (|tb| == 0 || |ta| == 0) ==> r == Err("Insufficient treatment data")
    ensures r.Ok? ==> r.value.didEstimate == (Mean(ta) - Mean(tb)) - (Mean(ba) - Mean(bb))
  {
    if |bb| == 0 || |ba| == 0 then Err("Insufficient baseline data")
    else if |tb| == 0 || |ta| == 0 then Err("Insufficient treatment data")
    else Ok(DiffInDiff(bb, ba, tb, ta, sqrt, cdf))
  }

  /** Some row in `[lo, hi)` has the policy value and a metric. */
  predicate HasRow<V(==)>(rows: seq<PolicyRow<V>>, lo: int, hi: int, value: V) {
    exists row :: row in rows && lo <= row.orderTime < hi && row.policy == Some(value) && row.metric.Some?
  }

  /**
   * The check fails exactly when one of the four window and policy-value
   * combinations has no row with a metric; the baseline error takes
   * precedence over the treatment error, and a result compares the four
   * windowed groups' means.
   */
  lemma CheckPolicyChangeFacts<V>(rows: seq<PolicyRow<V>>, changeTime: int, valueBefore: V, valueAfter: V,
                                  windowDays: int, sqrt: real -> real, cdf: real -> real)
    ensures var w := windowDays * SecondsPerDay;
            var r := CheckPolicyChange(rows, changeTime, valueBefore, valueAfter, windowDays, sqrt, cdf);
            var baseline := HasRow(rows, changeTime - w, changeTime, valueBefore) && HasRow(rows, changeTime, changeTime + w, valueBefore);
            var treatment := HasRow(rows, changeTime - w, changeTime, valueAfter) && HasRow(rows, changeTime, changeTime + w, valueAfter);
            (r.Ok? <==> baseline && treatment)
            && (!baseline ==> r == Err("Insufficient baseline data"))
            && (baseline && !treatment ==> r == Err("Insufficient treatment data"))
  {
    var w := windowDays * SecondsPerDay;
    GroupNonEmpty(rows, changeTime - w, changeTime, valueBefore);
    GroupNonEmpty(rows, changeTime - w, changeTime, valueAfter);
    GroupNonEmpty(rows, changeTime, changeTime + w, valueBefore);
    GroupNonEmpty(rows, changeTime, changeTime + w, valueAfter);
  }

  /** A successful check reports the difference-in-differences of the four windowed groups. */
  lemma CheckPolicyChangeResult<V>(rows: seq<PolicyRow<V>>, changeTime: int, valueBefore: V, valueAfter: V,
                                   windowDays: int, sqrt: real -> real, cdf: real -> real)
    requires CheckPolicyChange(rows, changeTime, valueBefore, valueAfter, windowDays, sqrt, cdf).Ok?
    ensures var w := windowDays * SecondsPerDay;
            var r := CheckPolicyChange(rows, changeTime, valueBefore, valueAfter, windowDays, sqrt, cdf);
            var bb := Group(rows, changeTime - w, changeTime, valueBefore);
            var tb := Group(rows, changeTime - w, changeTime, valueAfter);
            var ba := Group(rows, changeTime, changeTime + w, valueBefore);
            var ta := Group(rows, changeTime, changeTime + w, valueAfter);
            |bb| > 0 && |tb| > 0 && |ba| > 0 && |ta| > 0
            && r.Ok? && r.value.didEstimate == (Mean(ta) - Mean(tb)) - (Mean(ba) - Mean(bb))
  {
    var w := windowDays * SecondsPerDay;
    var bb := Group(rows, changeTime - w, changeTime, valueBefore);
    var tb := Group(rows, changeTime - w, changeTime, valueAfter);
    var ba := Group(rows, changeTime, changeTime + w, valueBefore);
    var ta := Group(rows, changeTime, changeTime + w, valueAfter);
    assert CheckPolicyChange(rows, changeTime, valueBefore, valueAfter, windowDays, sqrt, cdf)
      == CompareGroups(bb, ba, tb, ta, sqrt, cdf);
  }

  /** A time-ordered row: the feature and the target, either possibly missing. */
  datatype SeriesRow = SeriesRow(feature: Option<real>, target: Option<real>)

  /** The result dictionary of `temporal_correlation`; `lagDays` is absent on the short-series branch. */
  datatype Correlation = Correlation(correlation: real, pValue: real, significant: bool, lagDays: Option<int>)

  /** Minimum number of complete rows for a correlation. */
  const MinCorrelationRows: nat := 10

  /** pandas' `shift(lag)`: row `i` takes the feature of row `i - lag`, missing when that is outside. */
  function Lagged(rows: seq<SeriesRow>, lag: int): (p: seq<(Option<real>, Option<real>)>)
    ensures |p| == |rows|
    ensures forall i :: 0 <= i < |rows| ==>
              p[i] == (if 0 <= i - lag < |rows| then rows[i - lag].feature else None, rows[i].target)
  {
    seq(|rows|, i requires 0 <= i < |rows| =>
      (if 0 <= i - lag < |rows| then rows[i - lag].feature else None, rows[i].target))
  }

  /** `dropna()`: the pairs with both values present, in order. */
  function Clean(p: seq<(Option<real>, Option<real>)>): (c: seq<(real, real)>)
    ensures |c| <= |p|
  {
    if |p| == 0 then []
    else
      var last := p[|p| - 1];
      Clean(p[..|p| - 1]) + (if last.0.Some? && last.1.Some? then [(last.0.value, last.1.value)] else [])
  }

  /** Pairs whose first value is missing in a leading block are all dropped. */
  lemma {:induction false} CleanSkipsLeading(p: seq<(Option<real>, Option<real>)>, n: nat)
    requires n <= |p|
    requires forall i :: 0 <= i < n ==> p[i].0.None?
    ensures |Clean(p)| <= |p| - n
  {
    if |p| > 0 {
      var init := p[..|p| - 1];
      if |p| > n {
        CleanSkipsLeading(init, n);
      } else {
        CleanSkipsLeading(init, n - 1);
      }
    }
  }

  /**
   * `temporal_correlation` on rows already in time order; `pearson` is
   * scipy's test, giving the coefficient and its p-value.
   */
  function TemporalCorrelation(rows: seq<SeriesRow>, lagDays: int,
                               pearson: seq<(real, real)> -> (real, real)): (r: Correlation)
    ensures r.significant <==> r.pValue < Alpha
  {
    var clean := Clean(Lagged(rows, lagDays));
    if |clean| < MinCorrelationRows then Correlation(0.0, 1.0, false, None)
    else
      var (c, p) := pearson(clean);
      Correlation(c, p, p < Alpha, Some(lagDays))
  }

  /**
   * A series shorter than the lag plus ten rows never reaches Pearson's
   * test: the result is correlation 0, p-value 1 and not significant.
   */
  lemma ShortSeriesNotSignificant(rows: seq<SeriesRow>, lagDays: int, pearson: seq<(real, real)> -> (real, real))
    requires 0 <= lagDays <= |rows|
    requires |rows| < lagDays + MinCorrelationRows
    ensures TemporalCorrelation(rows, lagDays, pearson) == Correlation(0.0, 1.0, false, None)
  {
    CleanSkipsLeading(Lagged(rows, lagDays), lagDays);
  }

  /** The values of a dictionary's items, in order. */
  function Values(items: seq<(string, real)>): (vs: seq<real>)
    ensures |vs| == |items| && forall i :: 0 <= i < |items| ==> vs[i] == items[i].1
  {
    seq(|items|, i requires 0 <= i < |items| => items[i].1)
  }

  /** A feature's attribution before normalisation: its importance times the size of its change. */
  function Contribution(importance: real, before: real, after: real): real {
    importance * Abs(after - before)
  }

  /** `importance · |after - before|` for each feature known on both sides, in importance order. */
  function RawAttribution(importance: seq<(string, real)>, before: map<string, real>, after: map<string, real>): (r: seq<(string, real)>)
    ensures |r| <= |importance|
  {
    if |importance| == 0 then []
    else
      var last := importance[|importance| - 1];
      RawAttribution(importance[..|importance| - 1], before, after)
      + (if last.0 in before && last.0 in after then [(last.0, Contribution(last.1, before[last.0], after[last.0]))] else [])
  }

  /** The attribution entry of the feature at `j`, when it is known on both sides. */
  predicate AttributedAt(importance: seq<(string, real)>, before: map<string, real>, after: map<string, real>,
                         j: int, e: (string, real))
  {
    0 <= j < |importance| && importance[j].0 in before && importance[j].0 in after
    && e == (importance[j].0, Contribution(importance[j].1, before[importance[j].0], after[importance[j].0]))
  }

  /** The raw attributions are exactly the entries of the features known on both sides. */
  lemma {:induction false} RawAttributionMembers(importance: seq<(string, real)>, before: map<string, real>, after: map<string, real>)
    ensures forall e :: e in RawAttribution(importance, before, after) <==>
              exists j :: AttributedAt(importance, before, after, j, e)
  {
    if |importance| > 0 {
      var init := importance[..|importance| - 1];
      var n := |init|;
      RawAttributionMembers(init, before, after);
      var last := importance[n];
      assert RawAttribution(importance, before, after) == RawAttribution(init, before, after)
        + (if last.0 in before && last.0 in after then [(last.0, Contribution(last.1, before[last.0], after[last.0]))] else []);
      assert forall j :: 0 <= j < n ==> init[j] == importance[j];
      forall e | e in RawAttribution(importance, before, after)
        ensures exists j :: AttributedAt(importance, before, after, j, e)
      {
        if e in RawAttribution(init, before, after) {
          var j :| AttributedAt(init, before, after, j, e);
          assert AttributedAt(importance, before, after, j, e);
        } else {
          assert AttributedAt(importance, before, after, n, e);
        }
      }
      forall e | exists j :: AttributedAt(importance, before, after, j, e)
        ensures e in RawAttribution(importance, before, after)
      {
        var j :| AttributedAt(importance, before, after, j, e);
        if j < n {
          assert AttributedAt(init, before, after, j, e);
        }
      }
    }
  }

  /** Divide every value by `total`, keeping the keys. */
  function Normalize(items: seq<(string, real)>, total: real): (r: seq<(string, real)>)
    requires total != 0.0
    ensures |r| == |items| && forall i :: 0 <= i < |items| ==> r[i] == (items[i].0, items[i].1 / total)
  {
    seq(|items|, i requires 0 <= i < |items| => (items[i].0, items[i].1 / total))
  }

  /** `calculate_attribution_score`: raw attributions, normalised to sum 1 when their total is positive. */
  function Attribution(importance: seq<(string, real)>, before: map<string, real>, after: map<string, real>): seq<(string, real)> {
    var raw := RawAttribution(importance, before, after);
    var total := Sum(Values(raw));
    if total > 0.0 then Normalize(raw, total) else raw
  }

  /**
   * The attribution has one entry per raw entry, with the same feature;
   * a positive total makes the values the raw values over the total,
   * otherwise the raw values are returned unchanged.
   */
  lemma AttributionShape(importance: seq<(string, real)>, before: map<string, real>, after: map<string, real>)
    ensures var raw := RawAttribution(importance, before, after);
            var a := Attribution(importance, before, after);
            var total := Sum(Values(raw));
            |a| == |raw|
            && (forall i :: 0 <= i < |a| ==> a[i].0 == raw[i].0)
            && (total > 0.0 ==> forall i :: 0 <= i < |a| ==> a[i].1 == raw[i].1 / total)
            && (total <= 0.0 ==> a == raw)
  {
  }

  /** A positive total normalises the attributions to sum to 1. */
  lemma AttributionSumsToOne(importance: seq<(string, real)>, before: map<string, real>, after: map<string, real>)
    requires Sum(Values(RawAttribution(importance, before, after))) > 0.0
    ensures Sum(Values(Attribution(importance, before, after))) == 1.0
  {
    var raw := RawAttribution(importance, before, after);
    var total := Sum(Values(raw));
    var a := Normalize(raw, total);
    assert Values(a) == DivAll(Values(raw), total);
    SumDivAll(Values(raw), total);
    assert total / total == 1.0;
  }

  /** With non-negative importances every attribution is non-negative. */
  lemma AttributionNonNegative(importance: seq<(string, real)>, before: map<string, real>, after: map<string, real>)
    requires forall j :: 0 <= j < |importance| ==> importance[j].1 >= 0.0
    ensures forall i :: 0 <= i < |Attribution(importance, before, after)| ==> Attribution(importance, before, after)[i].1 >= 0.0
  {
    var raw := RawAttribution(importance, before, after);
    var total := Sum(Values(raw));
    RawAttributionMembers(importance, before, after);
    forall i | 0 <= i < |raw| ensures raw[i].1 >= 0.0 {
      assert raw[i] in raw;
      var j :| AttributedAt(importance, before, after, j, raw[i]);
      MulNonNegative(importance[j].1, Abs(after[importance[j].0] - before[importance[j].0]));
      assert raw[i].1 == Contribution(importance[j].1, before[importance[j].0], after[importance[j].0]);
    }
    if total > 0.0 {
      forall i | 0 <= i < |raw| ensures raw[i].1 / total >= 0.0 {
        DivSign(raw[i].1, total);
      }
    }
  }

  /** `calculate_attribution_score` as the source writes it: a loop filling the dictionary, then the normalisation. */
  method CalculateAttributionScore(importance: seq<(string, real)>, before: map<string, real>, after: map<string, real>)
    returns (attribution: seq<(string, real)>)
    ensures attribution == Attribution(importance, before, after)
  {
    attribution := [];
    var i := 0;
    while i < |importance|
      invariant 0 <= i <= |importance|
      invariant attribution == RawAttribution(importance[..i], before, after)
    {
      var (feature, value) := importance[i];
      assert importance[..i + 1][..i] == importance[..i];
      assert RawAttribution(importance[..i + 1], before, after) == RawAttribution(importance[..i], before, after)
        + (if feature in before && feature in after then [(feature, Contribution(value, before[feature], after[feature]))] else []);
      if feature in before && feature in after {
        attribution := attribution + [(feature, Contribution(value, before[feature], after[feature]))];
      }
      i := i + 1;
    }
    assert importance[..i] == importance;
    var total := Sum(Values(attribution));
    if total > 0.0 {
      attribution := Normalize(attribution, total);
    }
  }

  /** Evidence weights of the confidence score. */
  const ShapWeight: real := 0.4
  const DidWeight: real := 0.4
  const DidPartialCredit: real := 0.2
  const CorrelationWeight: real := 0.2

  /** SHAP evidence: `0.4 · min(1, 2 · max importance)`, nothing for an empty map. */
  function ShapEvidence(shap: seq<(string, real)>): real {
    if |shap| == 0 then 0.0 else ShapWeight * Min(1.0, MaxOf(Values(shap)) * 2.0)
  }

  /** Diff-in-diff evidence: full weight if significant, partial credit if not, nothing for an error or no result. */
  function DidEvidence(did: Option<Result<DidResult, string>>): real {
    match did
    case Some(Ok(d)) => if d.significant then DidWeight else DidPartialCredit
    case _ => 0.0
  }

  /** Correlation evidence: its weight only when significant. */
  function CorrelationEvidence(correlation: Option<Correlation>): real {
    if correlation.Some? && correlation.value.significant then CorrelationWeight else 0.0
  }

  /** `calculate_confidence_score`: the evidence added up and capped at 1. */
  function ConfidenceScore(shap: seq<(string, real)>, did: Option<Result<DidResult, string>>, correlation: Option<Correlation>): real {
    Min(1.0, ShapEvidence(shap) + DidEvidence(did) + CorrelationEvidence(correlation))
  }

  /**
   * The three weights add up to 1, so the cap never changes the sum; with
   * non-negative importances the score lies in [0, 1], and it is 0 when
   * there is no evidence at all.
   */
  lemma ConfidenceScoreBounds(shap: seq<(string, real)>, did: Option<Result<DidResult, string>>, correlation: Option<Correlation>)
    ensures ConfidenceScore(shap, did, correlation) == ShapEvidence(shap) + DidEvidence(did) + CorrelationEvidence(correlation)
    ensures (forall j :: 0 <= j < |shap| ==> shap[j].1 >= 0.0) ==> 0.0 <= ConfidenceScore(shap, did, correlation) <= 1.0
    ensures |shap| == 0 && did.None? && correlation.None? ==> ConfidenceScore(shap, did, correlation) == 0.0
  {
    if |shap| > 0 && forall j :: 0 <= j < |shap| ==> shap[j].1 >= 0.0 {
      var m := MaxOf(Values(shap));
      assert m >= 0.0 by { assert Values(shap)[0] <= m; }
    }
  }

  /**
   * More evidence never lowers the score: a significant diff-in-diff beats
   * an insignificant one, which beats none, and a significant correlation
   * adds its full weight.
   */
  lemma ConfidenceScoreMonotone(shap: seq<(string, real)>, d: DidResult, correlation: Option<Correlation>)
    ensures var sig := d.(significant := true);
            var insig := d.(significant := false);
            ConfidenceScore(shap, Some(Ok(sig)), correlation) == ConfidenceScore(shap, Some(Ok(insig)), correlation) + 0.2
            && ConfidenceScore(shap, Some(Ok(insig)), correlation) == ConfidenceScore(shap, None, correlation) + 0.2
    ensures forall c: Correlation :: c.significant ==>
              ConfidenceScore(shap, Some(Ok(d)), Some(c)) == ConfidenceScore(shap, Some(Ok(d)), None) + CorrelationWeight
  {
    ConfidenceScoreBounds(shap, Some(Ok(d.(significant := true))), correlation);
    ConfidenceScoreBounds(shap, Some(Ok(d.(significant := false))), correlation);
    ConfidenceScoreBounds(shap, None, correlation);
    forall c: Correlation | c.significant
      ensures ConfidenceScore(shap, Some(Ok(d)), Some(c)) == ConfidenceScore(shap, Some(Ok(d)), None) + CorrelationWeight
    {
      ConfidenceScoreBounds(shap, Some(Ok(d)), Some(c));
      ConfidenceScoreBounds(shap, Some(Ok(d)), None);
    }
  }

  /** `calculate_confidence_score` as the source writes it, accumulating the evidence step by step. */
  method CalculateConfidenceScore(shap: seq<(string, real)>, did: Option<Result<DidResult, string>>, correlation: Option<Correlation>)
    returns (confidence: real)
    ensures confidence == ConfidenceScore(shap, did, correlation)
  {
    confidence := 0.0;
    if |shap| > 0 {
      var maxImportance := MaxOf(Values(shap));
      confidence := confidence + ShapWeight * Min(1.0, maxImportance * 2.0);
    }
    if did.Some? && did.value.Ok? {
      if did.value.value.significant {
        confidence := confidence + DidWeight;
      } else {
        confidence := confidence + DidPartialCredit;
      }
    }
    if correlation.Some? && correlation.value.significant {
      confidence := confidence + CorrelationWeight;
    }
    confidence := Min(1.0, confidence);
  }
}
