/**
 * The tradeoff calculator: a weighted net benefit of a CX improvement
 * against an efficiency impact, its ROI and risk adjustment, a four-step
 * recommendation ladder, the ranking of several actions by risk-adjusted
 * benefit, a symmetric confidence interval, and the combined impact of
 * several actions with diminishing returns.
 */
module Tradeoffs {
  import opened Wrappers
  import opened Stats
  import opened Lists

  const CxWeight: real := 0.7
  const EfficiencyWeight: real := 0.3
  /** Efficiency impacts are read on a -10% .. +10% range. */
  const EfficiencyRange: real := 10.0

  /** The weighted net benefit of a CX improvement (points) and an efficiency impact (%). */
  function NetBenefit(cx: real, efficiency: real): real {
    CxWeight * cx / 100.0 + EfficiencyWeight * (efficiency / EfficiencyRange)
  }

  /**
   * The net benefit moves with both impacts: it is 0.007 per CX point and
   * 0.03 per efficiency percent, so it grows in each.
   */
  lemma NetBenefitLinear(cx: real, efficiency: real, cx': real, efficiency': real)
    ensures NetBenefit(cx', efficiency') - NetBenefit(cx, efficiency)
            == 0.007 * (cx' - cx) + 0.03 * (efficiency' - efficiency)
    ensures cx <= cx' && efficiency <= efficiency' ==> NetBenefit(cx, efficiency) <= NetBenefit(cx', efficiency')
  {
  }

  /** A return on investment, infinite when the efficiency impact is zero. */
  datatype Roi = Finite(value: real) | Infinite

  /** `cx / |efficiency|`, or infinity for a zero efficiency impact. */
  function ReturnOnInvestment(cx: real, efficiency: real): Roi {
    if efficiency != 0.0 then Finite(cx / Abs(efficiency)) else Infinite
  }

  /**
   * The ROI is infinite exactly for a zero efficiency impact; otherwise it
   * is the CX improvement per percent of efficiency impact, whatever the
   * impact's sign, and has the sign of the CX improvement.
   */
  lemma RoiFacts(cx: real, efficiency: real)
    ensures ReturnOnInvestment(cx, efficiency).Infinite? <==> efficiency == 0.0
    ensures efficiency != 0.0 ==>
              ReturnOnInvestment(cx, efficiency).value * Abs(efficiency) == cx
              && (ReturnOnInvestment(cx, efficiency).value >= 0.0 <==> cx >= 0.0)
              && ReturnOnInvestment(cx, efficiency) == ReturnOnInvestment(cx, -efficiency)
  {
    if efficiency != 0.0 {
      DivSign(cx, Abs(efficiency));
    }
  }

  /** The four recommendations, strongest first. */
  datatype Recommendation = StrongRecommend | Recommend | Consider | NotRecommended

  /** The label the source returns. */
  function Label(r: Recommendation): string {
    match r
    case StrongRecommend => "strong_recommend"
    case Recommend => "recommend"
    case Consider => "consider"
    case NotRecommended => "not_recommended"
  }

  /** How strong a recommendation is, 3 for the strongest. */
  function Strength(r: Recommendation): nat {
    match r
    case StrongRecommend => 3
    case Recommend => 2
    case Consider => 1
    case NotRecommended => 0
  }

  /** `_get_recommendation`. */
  function GetRecommendation(netBenefit: real, confidence: real): Recommendation {
    if netBenefit > 0.1 && confidence > 0.7 then StrongRecommend
    else if netBenefit > 0.05 && confidence > 0.6 then Recommend
    else if netBenefit > 0.0 then Consider
    else NotRecommended
  }

  /**
   * Each recommendation holds exactly on its band of the ladder: strong
   * needs net benefit above 0.1 with confidence above 0.7; recommend needs
   * net benefit above 0.05 with confidence above 0.6 and not strong;
   * anything with a positive net benefit is at least considered, and only
   * a non-positive net benefit is not recommended.
   */
  lemma RecommendationBands(netBenefit: real, confidence: real)
    ensures GetRecommendation(netBenefit, confidence) == StrongRecommend <==> netBenefit > 0.1 && confidence > 0.7
    ensures GetRecommendation(netBenefit, confidence) == Recommend <==>
              !(netBenefit > 0.1 && confidence > 0.7) && netBenefit > 0.05 && confidence > 0.6
    ensures GetRecommendation(netBenefit, confidence) == NotRecommended <==> netBenefit <= 0.0
    ensures Label(GetRecommendation(netBenefit, confidence)) in {"strong_recommend", "recommend", "consider", "not_recommended"}
  {
  }

  /** More net benefit and more confidence never weaken the recommendation. */
  lemma RecommendationMonotone(netBenefit: real, confidence: real, netBenefit': real, confidence': real)
    requires netBenefit <= netBenefit' && confidence <= confidence'
    ensures Strength(GetRecommendation(netBenefit, confidence)) <= Strength(GetRecommendation(netBenefit', confidence'))
  {
  }

  /** The tradeoff of one action. */
  datatype Tradeoff = Tradeoff(
    cxImprovement: real,
    efficiencyImpact: real,
    netBenefit: real,
    roi: Roi,
    riskAdjustedBenefit: real,
    confidence: real,
    recommendation: Recommendation)

  /** The net benefit discounted by the confidence in the estimates. */
  function RiskAdjusted(netBenefit: real, confidence: real): real {
    netBenefit * confidence
  }

  /** `calculate_tradeoff`. */
  function CalculateTradeoff(cx: real, efficiency: real, confidence: real): Tradeoff {
    var net := NetBenefit(cx, efficiency);
    Tradeoff(cx, efficiency, net, ReturnOnInvestment(cx, efficiency), RiskAdjusted(net, confidence), confidence,
             GetRecommendation(net, confidence))
  }

  /**
   * With a confidence in [0, 1] the risk-adjusted benefit lies between 0
   * and the net benefit, has the net benefit's sign, and equals it at full
   * confidence; a recommended action always has a positive net benefit.
   */
  lemma TradeoffFacts(cx: real, efficiency: real, confidence: real)
    requires 0.0 <= confidence <= 1.0
    ensures var t := CalculateTradeoff(cx, efficiency, confidence);
            (t.netBenefit >= 0.0 ==> 0.0 <= t.riskAdjustedBenefit <= t.netBenefit)
            && (t.netBenefit <= 0.0 ==> t.netBenefit <= t.riskAdjustedBenefit <= 0.0)
            && (confidence == 1.0 ==> t.riskAdjustedBenefit == t.netBenefit)
            && (t.recommendation != NotRecommended ==> t.netBenefit > 0.0)
  {
    var net := NetBenefit(cx, efficiency);
    if net >= 0.0 {
      MulNonNegative(net, confidence);
      MulNonNegative(net, 1.0 - confidence);
    } else {
      MulNonNegative(-net, confidence);
      MulNonNegative(-net, 1.0 - confidence);
    }
  }

  /** An action's impact estimates as a dictionary: `A` holds its other keys, passed through untouched. */
  datatype Estimate<A> = Estimate(
    details: A,
    expectedCxImpact: Option<real>,
    expectedEfficiencyImpact: Option<real>,
    confidence: Option<real>)

  /** Confidence assumed for an action that carries none. */
  const DefaultConfidence: real := 0.5

  /** The tradeoff of an estimate, with 0 for missing impacts. */
  function TradeoffOf<A>(e: Estimate<A>): Tradeoff {
    CalculateTradeoff(e.expectedCxImpact.GetOr(0.0), e.expectedEfficiencyImpact.GetOr(0.0),
                      e.confidence.GetOr(DefaultConfidence))
  }

  /** An action merged with its tradeoff. */
  datatype Compared<A> = Compared(action: Estimate<A>, tradeoff: Tradeoff)

  /** Sort key of `compare_actions`. */
  function RiskKey<A>(c: Compared<A>): seq<real> { [c.tradeoff.riskAdjustedBenefit] }

  /** Each action with its tradeoff, in input order. */
  function WithTradeoffs<A>(actions: seq<Estimate<A>>): (r: seq<Compared<A>>)
    ensures |r| == |actions|
    ensures forall i :: 0 <= i < |actions| ==> r[i] == Compared(actions[i], TradeoffOf(actions[i]))
  {
    seq(|actions|, i requires 0 <= i < |actions| => Compared(actions[i], TradeoffOf(actions[i])))
  }

  /** `compare_actions`: the actions with their tradeoffs, stably sorted by descending risk-adjusted benefit. */
  function CompareActions<A>(actions: seq<Estimate<A>>): seq<Compared<A>> {
    SortDesc(WithTradeoffs(actions), RiskKey)
  }

  /** Items in order of non-increasing risk-adjusted benefit. */
  ghost predicate ByRiskAdjusted<A>(r: seq<Compared<A>>) {
    forall i, j :: 0 <= i < j < |r| ==> r[i].tradeoff.riskAdjustedBenefit >= r[j].tradeoff.riskAdjustedBenefit
  }

  /**
   * The comparison keeps every action once, each with its own tradeoff,
   * ordered by non-increasing risk-adjusted benefit, with ties in input
   * order.
   */
  lemma CompareActionsFacts<A>(actions: seq<Estimate<A>>)
    ensures |CompareActions(actions)| == |actions|
    ensures multiset(CompareActions(actions)) == multiset(WithTradeoffs(actions))
    ensures ByRiskAdjusted(CompareActions(actions))
    ensures forall c :: c in CompareActions(actions) ==> c.tradeoff == TradeoffOf(c.action)
    ensures forall x: real :: KeyClass(CompareActions(actions), RiskKey, [x]) == KeyClass(WithTradeoffs(actions), RiskKey, [x])
  {
    var r := CompareActions(actions);
    SortDescSorted(WithTradeoffs(actions), RiskKey);
    forall i, j | 0 <= i < j < |r| ensures r[i].tradeoff.riskAdjustedBenefit >= r[j].tradeoff.riskAdjustedBenefit {
      assert !LexGt(RiskKey(r[j]), RiskKey(r[i]));
    }
    forall c | c in r ensures c.tradeoff == TradeoffOf(c.action) {
      assert c in multiset(WithTradeoffs(actions));
    }
    forall x: real ensures KeyClass(r, RiskKey, [x]) == KeyClass(WithTradeoffs(actions), RiskKey, [x]) {
      SortDescStable(WithTradeoffs(actions), RiskKey, [x]);
    }
  }

  /** `compare_actions` as the source writes it: append in a loop, then sort. */
  method CompareActionsLoop<A>(actions: seq<Estimate<A>>) returns (compared: seq<Compared<A>>)
    ensures compared == CompareActions(actions)
  {
    compared := [];
    for i := 0 to |actions|
      invariant compared == WithTradeoffs(actions)[..i]
    {
      compared := compared + [Compared(actions[i], TradeoffOf(actions[i]))];
    }
    assert compared == WithTradeoffs(actions);
    compared := SortDesc(compared, RiskKey);
  }

  /** The z-score for a confidence level: 1.645, 1.96 or 2.576 for 90%, 95% and 99%, else 1.96. */
  function ZScore(confidence: real): real {
    if confidence == 0.9 then 1.645
    else if confidence == 0.95 then 1.96
    else if confidence == 0.99 then 2.576
    else 1.96
  }

  /** Coefficient of variation assumed when no standard deviation is given. */
  const DefaultVariation: real := 0.2

  /** The margin `z · std`. */
  function Margin(z: real, std: real): real { z * std }

  /** `calculate_confidence_interval`: `(lower, upper)`. */
  function ConfidenceInterval(expected: real, confidence: real, stdDev: Option<real>): (real, real) {
    var std := if stdDev.Some? then stdDev.value else Abs(expected) * DefaultVariation;
    var margin := Margin(ZScore(confidence), std);
    (expected - margin, expected + margin)
  }

  /**
   * The interval is centred on the expected value and `2 · z · std` wide;
   * without a standard deviation it is `±0.2 · z · |expected|`, so it never
   * inverts; with one, it is ordered exactly when the deviation is not
   * negative.
   */
  lemma ConfidenceIntervalFacts(expected: real, confidence: real, stdDev: Option<real>)
    ensures var ci := ConfidenceInterval(expected, confidence, stdDev);
            (ci.0 + ci.1) / 2.0 == expected
    ensures var ci := ConfidenceInterval(expected, confidence, stdDev);
            var std := if stdDev.Some? then stdDev.value else Abs(expected) * DefaultVariation;
            ci.1 - ci.0 == 2.0 * Margin(ZScore(confidence), std)
    ensures stdDev.None? ==> ConfidenceInterval(expected, confidence, stdDev).0 <= ConfidenceInterval(expected, confidence, stdDev).1
    ensures stdDev.Some? ==>
              (ConfidenceInterval(expected, confidence, stdDev).0 <= ConfidenceInterval(expected, confidence, stdDev).1
               <==> stdDev.value >= 0.0)
  {
    var z := ZScore(confidence);
    var std := if stdDev.Some? then stdDev.value else Abs(expected) * DefaultVariation;
    assert z > 0.0;
    if std >= 0.0 {
      MulNonNegative(z, std);
    } else {
      MulPositive(z, -std);
    }
  }

  /** Unlisted confidence levels use the 95% z-score. */
  lemma ZScoreDefault(confidence: real)
    requires confidence != 0.9 && confidence != 0.95 && confidence != 0.99
    ensures ZScore(confidence) == ZScore(0.95)
  {
  }

  /** `b ** n`. */
  function Pow(b: real, n: nat): real {
    if n == 0 then 1.0 else b * Pow(b, n - 1)
  }

  /** Powers of a factor in [0, 1] stay in [0, 1]. */
  lemma {:induction false} PowBetween(b: real, n: nat)
    requires 0.0 <= b <= 1.0
    ensures 0.0 <= Pow(b, n) <= 1.0
  {
    if n > 0 {
      PowBetween(b, n - 1);
      MulNonNegative(b, Pow(b, n - 1));
      MulNonNegative(1.0 - b, Pow(b, n - 1));
    }
  }

  /** Share of each further action's CX impact that still counts. */
  const DiminishingFactor: real := 0.9

  /** `list.index`: the first position holding `x`. */
  function FirstIndex<T(==)>(s: seq<T>, x: T): (k: nat)
    requires x in s
    ensures k < |s| && s[k] == x && forall j :: 0 <= j < k ==> s[j] != x
  {
    if s[0] == x then 0 else 1 + FirstIndex(s[1..], x)
  }

  /** The number of the first `n` items whose first position is before `f`. */
  function CountFirstBefore<T(==)>(s: seq<T>, n: nat, f: nat): (c: nat)
    requires n <= |s|
    ensures c <= n
  {
    if n == 0 then 0
    else CountFirstBefore(s, n - 1, f) + (if FirstIndex(s, s[n - 1]) < f then 1 else 0)
  }

  /**
   * The discount exponent of the item at `i`: how many items of the list
   * have their first position before that of `s[i]`, as the source's list
   * comprehension over `actions.index` counts them.
   */
  function Exponent<T(==)>(s: seq<T>, i: nat): nat
    requires i < |s|
  {
    CountFirstBefore(s, |s|, FirstIndex(s, s[i]))
  }

  /** An estimate's CX impact, 0 when missing. */
  function CxOf<A>(e: Estimate<A>): real { e.expectedCxImpact.GetOr(0.0) }

  /** A CX impact discounted by `0.9 ^ k`. */
  function Discounted(cx: real, k: nat): real { cx * Pow(DiminishingFactor, k) }

  /** The combined CX improvement of the first `n` actions, as the source's loop accumulates it. */
  function CombinedCx<A(==)>(actions: seq<Estimate<A>>, n: nat): real
    requires n <= |actions|
  {
    if n == 0 then 0.0 else CombinedCx(actions, n - 1) + Discounted(CxOf(actions[n - 1]), Exponent(actions, n - 1))
  }

  /** `sum(0.9 ^ i · cx_i)`: the combined CX improvement when every action is counted at its position. */
  function PositionalCx<A>(actions: seq<Estimate<A>>, n: nat): real
    requires n <= |actions|
  {
    if n == 0 then 0.0 else PositionalCx(actions, n - 1) + Discounted(CxOf(actions[n - 1]), n - 1)
  }

  /** In a list without repeats every item is first at its own position. */
  lemma FirstIndexDistinct<T>(s: seq<T>, i: nat)
    requires Distinct(s) && i < |s|
    ensures FirstIndex(s, s[i]) == i
  {
  }

  /** Without repeats, the items first before position `f` among the first `n` are those at positions below `f`. */
  lemma {:induction false} CountFirstBeforeDistinct<T>(s: seq<T>, n: nat, f: nat)
    requires Distinct(s) && n <= |s|
    ensures CountFirstBefore(s, n, f) == if n < f then n else f
  {
    if n > 0 {
      CountFirstBeforeDistinct(s, n - 1, f);
      FirstIndexDistinct(s, n - 1);
    }
  }

  /** Without repeated actions, the `i`-th action is discounted by `0.9 ^ i`. */
  lemma ExponentDistinct<T>(s: seq<T>, i: nat)
    requires Distinct(s) && i < |s|
    ensures Exponent(s, i) == i
  {
    FirstIndexDistinct(s, i);
    CountFirstBeforeDistinct(s, |s|, i);
  }

  /** For pairwise-distinct actions the combined CX improvement is `Σ cx_i · 0.9 ^ i`. */
  lemma {:induction false} CombinedCxDistinct<A>(actions: seq<Estimate<A>>, n: nat)
    requires Distinct(actions) && n <= |actions|
    ensures CombinedCx(actions, n) == PositionalCx(actions, n)
  {
    if n > 0 {
      CombinedCxDistinct(actions, n - 1);
      ExponentDistinct(actions, n - 1);
    }
  }

  /** The plain sum of the first `n` CX impacts. */
  function PlainCx<A>(actions: seq<Estimate<A>>, n: nat): real
    requires n <= |actions|
  {
    if n == 0 then 0.0 else PlainCx(actions, n - 1) + CxOf(actions[n - 1])
  }

  /** A discounted non-negative impact lies between 0 and the impact. */
  lemma DiscountedBetween(cx: real, k: nat)
    requires cx >= 0.0
    ensures 0.0 <= Discounted(cx, k) <= cx
  {
    PowBetween(DiminishingFactor, k);
    MulNonNegative(cx, Pow(DiminishingFactor, k));
    MulNonNegative(cx, 1.0 - Pow(DiminishingFactor, k));
  }

  /**
   * Diminishing returns: with non-negative CX impacts the combined
   * improvement is non-negative and at most the plain sum of the impacts.
   */
  lemma {:induction false} CombinedCxBelowSum<A>(actions: seq<Estimate<A>>, n: nat)
    requires n <= |actions|
    requires forall i :: 0 <= i < |actions| ==> CxOf(actions[i]) >= 0.0
    ensures 0.0 <= CombinedCx(actions, n) <= PlainCx(actions, n)
  {
    if n > 0 {
      CombinedCxBelowSum(actions, n - 1);
      DiscountedBetween(CxOf(actions[n - 1]), Exponent(actions, n - 1));
    }
  }

  /** The efficiency impacts of the actions, 0 when missing. */
  function EfficiencyImpacts<A>(actions: seq<Estimate<A>>): (r: seq<real>)
    ensures |r| == |actions| && forall i :: 0 <= i < |actions| ==> r[i] == actions[i].expectedEfficiencyImpact.GetOr(0.0)
  {
    seq(|actions|, i requires 0 <= i < |actions| => actions[i].expectedEfficiencyImpact.GetOr(0.0))
  }

  /** The confidences of the actions, 0.5 when missing. */
  function Confidences<A>(actions: seq<Estimate<A>>): (r: seq<real>)
    ensures |r| == |actions| && forall i :: 0 <= i < |actions| ==> r[i] == actions[i].confidence.GetOr(DefaultConfidence)
  {
    seq(|actions|, i requires 0 <= i < |actions| => actions[i].confidence.GetOr(DefaultConfidence))
  }

  /** The combined impact; the confidence is absent for no actions, where numpy's mean is undefined. */
  datatype CombinedImpact = CombinedImpact(
    combinedCxImprovement: real,
    combinedEfficiencyImpact: real,
    combinedConfidence: Option<real>,
    numActions: nat)

  /** `calculate_combined_impact`. */
  method CalculateCombinedImpact<A(==)>(actions: seq<Estimate<A>>) returns (c: CombinedImpact)
    ensures c.combinedCxImprovement == CombinedCx(actions, |actions|)
    ensures c.combinedEfficiencyImpact == Sum(EfficiencyImpacts(actions))
    ensures c.combinedConfidence.None? <==> |actions| == 0
    ensures c.combinedConfidence.Some? ==> c.combinedConfidence.value == Mean(Confidences(actions))
    ensures c.numActions == |actions|
  {
    var total := 0.0;
    for i := 0 to |actions|
      invariant total == CombinedCx(actions, i)
    {
      total := total + Discounted(CxOf(actions[i]), Exponent(actions, i));
    }
    var confidence := if |actions| == 0 then None else Some(Mean(Confidences(actions)));
    c := CombinedImpact(total, Sum(EfficiencyImpacts(actions)), confidence, |actions|);
  }

  /**
   * Every confidence in [0, 1] keeps the combined confidence in [0, 1], and
   * for distinct actions the combined CX improvement is the positional
   * discounted sum.
   */
  lemma CombinedImpactFacts<A>(actions: seq<Estimate<A>>)
    requires |actions| > 0
    requires forall i :: 0 <= i < |actions| ==> 0.0 <= actions[i].confidence.GetOr(DefaultConfidence) <= 1.0
    ensures 0.0 <= Mean(Confidences(actions)) <= 1.0
    ensures Distinct(actions) ==> CombinedCx(actions, |actions|) == PositionalCx(actions, |actions|)
  {
    MeanBetween(Confidences(actions), 0.0, 1.0);
    if Distinct(actions) {
      CombinedCxDistinct(actions, |actions|);
    }
  }
}
