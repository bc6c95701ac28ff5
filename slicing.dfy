/**
 * Slice ranking: regressing cohorts annotated with a heuristic p-value and
 * its significance label, filtered by order count, ranked and cut.
 */
module Slicing {
  import opened Wrappers
  import opened Stats
  import opened Strings
  import opened Lists
  import opened Schema
  import opened Cohorts

  /** `sorted(c1.items()) == sorted(c2.items())`. */
  predicate CohortsMatch(c1: seq<(string, Cell)>, c2: seq<(string, Cell)>) {
    CohortKey(c1) == CohortKey(c2)
  }

  /** Two cohorts match exactly when they hold the same items, whatever their order. */
  lemma CohortsMatchMeaning(c1: seq<(string, Cell)>, c2: seq<(string, Cell)>)
    requires DistinctKeys(c1) && DistinctKeys(c2)
    ensures CohortsMatch(c1, c2) <==> multiset(c1) == multiset(c2)
    ensures CohortsMatch(c1, c2) <==> CohortsMatch(c2, c1)
  {
    CohortKeyOrderFree(c1, c2);
  }

  /** The first entry whose cohort matches, or None. */
  function FindCohortMetrics(entries: seq<CohortMetrics>, cohort: seq<(string, Cell)>): (r: Option<CohortMetrics>)
    ensures r.Some? ==> r.value in entries
  {
    if |entries| == 0 then None
    else if CohortsMatch(entries[0].cohort, cohort) then Some(entries[0])
    else FindCohortMetrics(entries[1..], cohort)
  }

  /** None exactly when no entry matches; otherwise the first matching entry. */
  lemma FindCohortMetricsFacts(entries: seq<CohortMetrics>, cohort: seq<(string, Cell)>)
    ensures FindCohortMetrics(entries, cohort).None? <==> forall k :: 0 <= k < |entries| ==> !CohortsMatch(entries[k].cohort, cohort)
    ensures FindCohortMetrics(entries, cohort).Some? ==>
              exists k :: 0 <= k < |entries| && entries[k] == FindCohortMetrics(entries, cohort).value
                          && CohortsMatch(entries[k].cohort, cohort)
                          && forall k' :: 0 <= k' < k ==> !CohortsMatch(entries[k'].cohort, cohort)
  {
    if FindCohortMetrics(entries, cohort).Some? {
      var k := FindCohortMetricsFirst(entries, cohort);
    } else {
      FindCohortMetricsNone(entries, cohort);
    }
  }

  lemma {:induction false} FindCohortMetricsNone(entries: seq<CohortMetrics>, cohort: seq<(string, Cell)>)
    requires FindCohortMetrics(entries, cohort).None?
    ensures forall k :: 0 <= k < |entries| ==> !CohortsMatch(entries[k].cohort, cohort)
  {
    if |entries| > 0 {
      FindCohortMetricsNone(entries[1..], cohort);
      forall k | 0 < k < |entries| ensures !CohortsMatch(entries[k].cohort, cohort) {
        assert entries[k] == entries[1..][k - 1];
      }
    }
  }

  /** The entry found is the first one whose cohort matches. */
  lemma {:induction false} FindCohortMetricsFirst(entries: seq<CohortMetrics>, cohort: seq<(string, Cell)>) returns (k: nat)
    requires FindCohortMetrics(entries, cohort).Some?
    ensures k < |entries| && entries[k] == FindCohortMetrics(entries, cohort).value
    ensures CohortsMatch(entries[k].cohort, cohort)
    ensures forall k' :: 0 <= k' < k ==> !CohortsMatch(entries[k'].cohort, cohort)
  {
    if CohortsMatch(entries[0].cohort, cohort) {
      k := 0;
    } else {
      var j := FindCohortMetricsFirst(entries[1..], cohort);
      k := j + 1;
      assert entries[k] == entries[1..][j];
      forall k' | 0 <= k' < k ensures !CohortsMatch(entries[k'].cohort, cohort) {
        if k' > 0 {
          assert entries[k'] == entries[1..][k' - 1];
        }
      }
    }
  }

  /** Fewest orders each period needs for a computed p-value. */
  const MinSignificanceOrders: int := 10

  /** Floor of the heuristic p-value. */
  const MinPValue: real := 0.001

  /** `|current - baseline|` relative to `|baseline|`, or to 1 for a zero baseline. */
  function EffectSize(baselineValue: real, currentValue: real): (e: real)
    ensures e >= 0.0
  {
    if baselineValue == 0.0 then Abs(currentValue - baselineValue) / 1.0
    else Abs(currentValue - baselineValue) / Abs(baselineValue)
  }

  /**
   * The heuristic p-value: 1.0 when either period has fewer than ten orders,
   * else `max(0.001, 1 - effect * min(counts) / 100)`, which lies in
   * [0.001, 1]; None where the source raises, when both periods have ten
   * orders but one value is not a number.
   */
  function CalculateSignificance(baseline: CohortMetrics, current: CohortMetrics, metric: string): (p: Option<real>)
    ensures p.None? <==> baseline.orderCount >= MinSignificanceOrders && current.orderCount >= MinSignificanceOrders
                         && (MetricGet(baseline, metric).None? || MetricGet(current, metric).None?)
    ensures p.Some? ==> MinPValue <= p.value <= 1.0
    ensures baseline.orderCount < MinSignificanceOrders || current.orderCount < MinSignificanceOrders ==> p == Some(1.0)
  {
    if baseline.orderCount < MinSignificanceOrders || current.orderCount < MinSignificanceOrders then Some(1.0)
    else if MetricGet(baseline, metric).None? || MetricGet(current, metric).None? then None
    else
      var b := MetricGet(baseline, metric).value;
      var c := MetricGet(current, metric).value;
      var effect := EffectSize(b, c);
      var nFactor := (if baseline.orderCount <= current.orderCount then baseline.orderCount else current.orderCount) as real / 100.0;
      MulNonNegative(effect, nFactor);
      Some(Max(MinPValue, 1.0 - effect * nFactor))
  }

  /** A larger effect at the same order counts never gives a larger p-value. */
  lemma SignificanceMonotoneInEffect(b1: real, c1: real, b2: real, c2: real, n: real)
    requires n >= 0.0 && EffectSize(b1, c1) <= EffectSize(b2, c2)
    ensures Max(MinPValue, 1.0 - EffectSize(b2, c2) * n) <= Max(MinPValue, 1.0 - EffectSize(b1, c1) * n)
  {
    ScaledComplementAntitone(EffectSize(b1, c1), EffectSize(b2, c2), n, MinPValue);
  }

  /** `***` below 0.001, `**` below 0.01, `*` below 0.05, else `ns`; `unknown` without a p-value. */
  function SignificanceLevel(p: Option<real>): string {
    match p
    case None => "unknown"
    case Some(v) =>
      if v < 0.001 then "***"
      else if v < 0.01 then "**"
      else if v < 0.05 then "*"
      else "ns"
  }

  /** Sort rank of a label; unrecognised labels rank with `unknown`. */
  function SignificanceToNumeric(level: string): (n: int)
    ensures 0 <= n <= 4
  {
    if level == "***" then 4
    else if level == "**" then 3
    else if level == "*" then 2
    else if level == "ns" then 1
    else 0
  }

  /**
   * A smaller p-value never ranks lower, and a p-value from
   * `CalculateSignificance` (at least 0.001) is never labelled `***`.
   */
  lemma SignificanceLevelFacts(p: real, q: real)
    requires p <= q
    ensures SignificanceToNumeric(SignificanceLevel(Some(q))) <= SignificanceToNumeric(SignificanceLevel(Some(p)))
    ensures p >= MinPValue ==> SignificanceLevel(Some(p)) != "***"
    ensures SignificanceToNumeric(SignificanceLevel(Some(p))) >= 1
  {
  }

  /** A regressing cohort with its p-value and label. */
  datatype Slice = Slice(regression: Regression, significance: Option<real>, level: string)

  /**
   * Attach the significance, computed from the first matching entry of each
   * period; no p-value (`unknown`) when a period has no matching entry, and
   * None where computing the p-value raises.
   */
  function Annotate(r: Regression, baseline: seq<CohortMetrics>, current: seq<CohortMetrics>, metric: string)
    : (s: Option<Slice>)
    ensures s.None? <==> && FindCohortMetrics(baseline, r.cohort).Some? && FindCohortMetrics(current, r.cohort).Some?
                         && CalculateSignificance(FindCohortMetrics(baseline, r.cohort).value,
                                                  FindCohortMetrics(current, r.cohort).value, metric).None?
    ensures s.Some? ==> s.value.regression == r && s.value.level == SignificanceLevel(s.value.significance)
    ensures s.Some? && s.value.significance.Some? ==> MinPValue <= s.value.significance.value <= 1.0
    ensures s.Some? ==> (s.value.significance.None? <==>
                           FindCohortMetrics(baseline, r.cohort).None? || FindCohortMetrics(current, r.cohort).None?)
  {
    var b := FindCohortMetrics(baseline, r.cohort);
    var c := FindCohortMetrics(current, r.cohort);
    if b.Some? && c.Some? then
      match CalculateSignificance(b.value, c.value, metric)
      case None => None
      case Some(p) => Some(Slice(r, Some(p), SignificanceLevel(Some(p))))
    else Some(Slice(r, None, "unknown"))
  }

  /** Every regression annotated, in order; None when any annotation fails. */
  function AnnotateAll(rs: seq<Regression>, baseline: seq<CohortMetrics>, current: seq<CohortMetrics>, metric: string)
    : (ss: Option<seq<Slice>>)
    ensures ss.None? <==> exists k :: 0 <= k < |rs| && Annotate(rs[k], baseline, current, metric).None?
    ensures ss.Some? ==> |ss.value| == |rs|
                         && forall k :: 0 <= k < |rs| ==> Some(ss.value[k]) == Annotate(rs[k], baseline, current, metric)
  {
    if forall k | 0 <= k < |rs| :: Annotate(rs[k], baseline, current, metric).Some? then
      Some(seq(|rs|, k requires 0 <= k < |rs| && Annotate(rs[k], baseline, current, metric).Some? =>
                       Annotate(rs[k], baseline, current, metric).value))
    else None
  }

  /** The slices, in order, with at least `minOrders` orders. */
  function KeepEnoughOrders(ss: seq<Slice>, minOrders: int): (r: seq<Slice>)
    ensures forall x :: x in r <==> x in ss && x.regression.orderCount >= minOrders
  {
    if |ss| == 0 then []
    else
      var last := ss[|ss| - 1];
      assert ss == ss[..|ss| - 1] + [last];
      KeepEnoughOrders(ss[..|ss| - 1], minOrders) + (if last.regression.orderCount >= minOrders then [last] else [])
  }

  /** Ranking key: significance rank, then the size of the drop. */
  function SliceKey(s: Slice): seq<real> {
    [SignificanceToNumeric(s.level) as real, Abs(s.regression.delta)]
  }

  /** Reference result of `find_top_regressing_slices`; None where the source raises. */
  function TopSlices(baseline: seq<CohortMetrics>, current: seq<CohortMetrics>, metric: string, topN: int, minOrders: int)
    : Option<seq<Slice>>
  {
    match TopRegressing(baseline, current, metric, topN * 2)
    case None => None
    case Some(candidates) =>
      match AnnotateAll(candidates, baseline, current, metric)
      case None => None
      case Some(annotated) => Some(Take(SortDesc(KeepEnoughOrders(annotated, minOrders), SliceKey), topN))
  }

  /**
   * `find_top_regressing_slices`: twice `topN` regressing cohorts, each
   * annotated in place with its significance, then those with enough
   * orders, most significant and largest drop first, cut to `topN`.
   */
  method FindTopRegressingSlices(baseline: seq<CohortMetrics>, current: seq<CohortMetrics>, metric: string,
                                 topN: int, minOrders: int) returns (slices: Option<seq<Slice>>)
    ensures slices == TopSlices(baseline, current, metric, topN, minOrders)
  {
    var found := FindTopRegressingCohorts(baseline, current, metric, topN * 2);
    if found.None? {
      return None;
    }
    var annotated := AnnotateEach(found.value, baseline, current, metric);
    if annotated.None? {
      return None;
    }
    var filtered := KeepEnoughOrders(annotated.value, minOrders);
    slices := Some(Take(SortDesc(filtered, SliceKey), topN));
  }

  /** The loop of `find_top_regressing_slices` that annotates each regressing cohort in turn; None where one raises. */
  method AnnotateEach(regressing: seq<Regression>, baseline: seq<CohortMetrics>, current: seq<CohortMetrics>,
                      metric: string) returns (r: Option<seq<Slice>>)
    ensures r == AnnotateAll(regressing, baseline, current, metric)
  {
    var annotated: seq<Slice> := [];
    var i := 0;
    while i < |regressing|
      invariant 0 <= i <= |regressing| && |annotated| == i
      invariant forall k :: 0 <= k < i ==> Annotate(regressing[k], baseline, current, metric) == Some(annotated[k])
    {
      var s := Annotate(regressing[i], baseline, current, metric);
      if s.None? {
        assert AnnotateAll(regressing, baseline, current, metric).None?;
        return None;
      }
      annotated := annotated + [s.value];
      i := i + 1;
    }
    assert forall k :: 0 <= k < |regressing| ==> Annotate(regressing[k], baseline, current, metric).Some?;
    ghost var all := AnnotateAll(regressing, baseline, current, metric);
    assert all.Some? && |all.value| == |annotated|;
    assert forall k :: 0 <= k < |annotated| ==> all.value[k] == annotated[k];
    assert all.value == annotated;
    r := Some(annotated);
  }

  /** Every annotated slice kept for ranking has enough orders, a drop and no `***` label. */
  lemma KeptSlicesFacts(candidates: seq<Regression>, baseline: seq<CohortMetrics>, current: seq<CohortMetrics>,
                        metric: string, minOrders: int)
    requires AnnotateAll(candidates, baseline, current, metric).Some?
    requires forall k :: 0 <= k < |candidates| ==> candidates[k].delta < 0.0
    ensures forall s :: s in KeepEnoughOrders(AnnotateAll(candidates, baseline, current, metric).value, minOrders) ==>
              s.regression.orderCount >= minOrders && s.regression.delta < 0.0 && s.level != "***"
              && s.regression in candidates
  {
    var annotated := AnnotateAll(candidates, baseline, current, metric).value;
    forall s | s in KeepEnoughOrders(annotated, minOrders)
      ensures s.regression.orderCount >= minOrders && s.regression.delta < 0.0 && s.level != "***"
              && s.regression in candidates
    {
      var k :| 0 <= k < |annotated| && annotated[k] == s;
      assert Some(annotated[k]) == Annotate(candidates[k], baseline, current, metric);
      if s.significance.Some? {
        SignificanceLevelFacts(s.significance.value, s.significance.value);
      }
    }
  }

  /** The slices ranked for the answer: the annotated candidates with enough orders. */
  ghost function RankedSlices(baseline: seq<CohortMetrics>, current: seq<CohortMetrics>, metric: string, topN: int,
                              minOrders: int): seq<Slice>
    requires TopSlices(baseline, current, metric, topN, minOrders).Some?
  {
    var candidates := TopRegressing(baseline, current, metric, topN * 2).value;
    KeepEnoughOrders(AnnotateAll(candidates, baseline, current, metric).value, minOrders)
  }

  /**
   * None exactly when finding the regressing cohorts raises or one of their
   * annotations does. Otherwise the slices with enough orders ranked by
   * (significance, |delta|) descending and cut to `topN` — every slice
   * left out ranks no higher than every slice kept — each with a strictly
   * negative delta, a label other than `***`, and a regression among the
   * regressing cohorts.
   */
  lemma TopSlicesFacts(baseline: seq<CohortMetrics>, current: seq<CohortMetrics>, metric: string, topN: int, minOrders: int)
    ensures TopSlices(baseline, current, metric, topN, minOrders).None? <==>
              || TopRegressing(baseline, current, metric, topN * 2).None?
              || exists x :: x in TopRegressing(baseline, current, metric, topN * 2).value
                             && Annotate(x, baseline, current, metric).None?
    ensures TopSlices(baseline, current, metric, topN, minOrders).Some? ==>
              RankedCut(TopSlices(baseline, current, metric, topN, minOrders).value,
                        RankedSlices(baseline, current, metric, topN, minOrders), topN, SliceKey)
    ensures TopSlices(baseline, current, metric, topN, minOrders).Some? ==>
              forall s :: s in TopSlices(baseline, current, metric, topN, minOrders).value ==>
                && s.regression.orderCount >= minOrders && s.regression.delta < 0.0 && s.level != "***"
                && s.regression in TopRegressing(baseline, current, metric, topN * 2).value
  {
    var top := TopRegressing(baseline, current, metric, topN * 2);
    TopRegressingFacts(baseline, current, metric, topN * 2);
    if top.Some? {
      var candidates := top.value;
      var annotated := AnnotateAll(candidates, baseline, current, metric);
      if annotated.None? {
        var k :| 0 <= k < |candidates| && Annotate(candidates[k], baseline, current, metric).None?;
        assert candidates[k] in candidates;
      } else {
        assert forall k :: 0 <= k < |candidates| ==> candidates[k].delta < 0.0 by {
          forall k | 0 <= k < |candidates| ensures candidates[k].delta < 0.0 {
            assert candidates[k] in candidates;
          }
        }
        KeptSlicesFacts(candidates, baseline, current, metric, minOrders);
        var filtered := KeepEnoughOrders(annotated.value, minOrders);
        RankedCutOfSort(filtered, topN, SliceKey);
      }
    }
  }

  /** Comparison of one metric between two slices. */
  datatype Comparison = Comparison(
    slice1Value: real,
    slice2Value: real,
    delta: real,
    deltaPercent: real,
    slice1Cohort: seq<(string, Cell)>,
    slice2Cohort: seq<(string, Cell)>)

  /**
   * `delta = v2 - v1`, and `delta / v1 * 100` as a percentage, 0 when `v1` is
   * zero. The subtraction raises (None) when either value is not a number.
   */
  function CompareSlices(s1: CohortMetrics, s2: CohortMetrics, metric: string): (r: Option<Comparison>)
    ensures r.None? <==> MetricGet(s1, metric).None? || MetricGet(s2, metric).None?
    ensures r.Some? ==> r.value.slice1Value == MetricGet(s1, metric).value
                        && r.value.slice2Value == MetricGet(s2, metric).value
                        && r.value.slice1Cohort == s1.cohort && r.value.slice2Cohort == s2.cohort
    ensures r.Some? ==> r.value.slice1Value + r.value.delta == r.value.slice2Value
    ensures r.Some? && r.value.slice1Value == 0.0 ==> r.value.deltaPercent == 0.0
    ensures r.Some? && r.value.slice1Value > 0.0 ==> (r.value.deltaPercent < 0.0 <==> r.value.delta < 0.0)
  {
    match (MetricGet(s1, metric), MetricGet(s2, metric))
    case (Some(v1), Some(v2)) =>
      var delta := v2 - v1;
      var pct := if v1 != 0.0 then delta / v1 * 100.0 else 0.0;
      PercentSign(delta, v1);
      Some(Comparison(v1, v2, delta, pct, s1.cohort, s2.cohort))
    case _ => None
  }

  lemma PercentSign(delta: real, base: real)
    ensures base > 0.0 ==> (delta / base * 100.0 < 0.0 <==> delta < 0.0)
  {
    if base > 0.0 {
      var q := delta / base;
      assert q * base == delta;
      if q >= 0.0 { MulNonNegative(q, base); }
      if q < 0.0 { MulPositive(-q, base); }
    }
  }

  /** Comparing the other way round negates the change. */
  lemma CompareSlicesAntisymmetric(s1: CohortMetrics, s2: CohortMetrics, metric: string)
    ensures CompareSlices(s2, s1, metric).None? <==> CompareSlices(s1, s2, metric).None?
    ensures CompareSlices(s1, s2, metric).Some? ==>
              CompareSlices(s2, s1, metric).value.delta == -CompareSlices(s1, s2, metric).value.delta
  {
  }

  /** One `key=value` part of a cohort label. */
  function LabelPart(item: (string, Cell), show: Cell -> string): string {
    item.0 + "=" + show(item.1)
  }

  /**
   * `All` for the empty cohort, else its `key=value` parts in key order
   * joined by ` | `. How a value is written is the parameter `show`.
   */
  function FormatCohortLabel(cohort: seq<(string, Cell)>, show: Cell -> string): string {
    if |cohort| == 0 then "All"
    else
      var items := CohortKey(cohort);
      Join(seq(|items|, k requires 0 <= k < |items| => LabelPart(items[k], show)), " | ")
  }

  /**
   * The label does not depend on the insertion order of the cohort's items,
   * and `All` is the label of the empty cohort only.
   */
  lemma FormatCohortLabelFacts(c1: seq<(string, Cell)>, c2: seq<(string, Cell)>, show: Cell -> string)
    requires DistinctKeys(c1) && DistinctKeys(c2) && multiset(c1) == multiset(c2)
    ensures FormatCohortLabel(c1, show) == FormatCohortLabel(c2, show)
    ensures FormatCohortLabel(c1, show) == "All" <==> |c1| == 0
  {
    CohortKeyOrderFree(c1, c2);
    if |c1| == 0 {
      assert |c2| == |multiset(c2)| == 0;
    } else {
      assert |c2| == |multiset(c2)| == |c1|;
      LabelNotAll(c1, show);
    }
  }

  /** A non-empty cohort's label has an `=` among its first characters, so it is not `All`. */
  lemma LabelNotAll(c: seq<(string, Cell)>, show: Cell -> string)
    requires DistinctKeys(c) && |c| > 0
    ensures FormatCohortLabel(c, show) != "All"
  {
    var items := CohortKey(c);
    var parts := seq(|items|, k requires 0 <= k < |items| => LabelPart(items[k], show));
    var text := Join(parts, " | ");
    JoinStartsWithFirst(parts, " | ");
    assert parts[0][|items[0].0|] == '=';
    assert text[|items[0].0|] == '=';
    assert "All"[0] != '=' && "All"[1] != '=' && "All"[2] != '=';
  }
}
