/**
 * The what-if simulator: counterfactual estimates of what reducing batching,
 * padding the promised ETA or suppressing doubtful SKUs would do to the CX
 * metrics of the whole data set or of one cohort.
 */
module WhatIf {
  import opened Wrappers
  import opened Stats
  import opened Strings
  import opened Schema
  import opened CxMetrics
  import opened Cohorts

  // ---------------------------------------------------------------------------
  // Starting point and re-scoring
  // ---------------------------------------------------------------------------

  /** The six rates the CX score is built from. */
  function RatesOf(m: Metrics): Rates {
    Rates(m.onTimeRate, m.itemAccuracy, m.cancellationRate, m.refundRate, m.supportRate, m.ratingProxy)
  }

  /** A metrics record whose CX score is the weighted score of its own rates. */
  predicate Consistent(m: Metrics) {
    m.cxScore == CxScore(RatesOf(m))
  }

  /**
   * The metrics a simulation starts from: those of one cohort when a
   * non-empty filter is given, and those of all the data otherwise (an absent
   * or empty filter is falsy and filters nothing).
   */
  function CurrentMetrics(t: Tables, cohort: Option<seq<(string, Cell)>>): (m: Metrics)
    ensures Consistent(m)
    ensures cohort.Some? && |cohort.value| > 0 ==>
              m == MetricsForCohort(cohort.value, t.orders, t.deliveries, t.items, t.support, t.ratings)
    ensures cohort.Some? && |cohort.value| > 0 ==> 0.0 <= m.cxScore <= 100.0
    ensures (cohort.None? || |cohort.value| == 0) ==>
              m == CalculateCxScore(t.orders, t.deliveries, t.items, t.support, t.ratings)
  {
    if cohort.Some? && |cohort.value| > 0 then
      MetricsForCohort(cohort.value, t.orders, t.deliveries, t.items, t.support, t.ratings)
    else
      CalculateCxScore(t.orders, t.deliveries, t.items, t.support, t.ratings)
  }

  /** The CX score as the simulator recomputes it, weight by weight. */
  function Rescore(m: Metrics): (r: Metrics) {
    m.(cxScore :=
      0.30 * m.onTimeRate * 100.0
      + 0.25 * m.itemAccuracy * 100.0
      + 0.15 * (1.0 - m.cancellationRate) * 100.0
      + 0.15 * (1.0 - m.refundRate) * 100.0
      + 0.10 * (1.0 - m.supportRate) * 100.0
      + 0.05 * m.ratingProxy * 100.0)
  }

  /** Re-scoring uses the metric calculator's own weights and touches nothing but the score. */
  lemma RescoreAgrees(m: Metrics)
    ensures Consistent(Rescore(m))
    ensures Rescore(m) == m.(cxScore := CxScore(RatesOf(m)))
    ensures Consistent(m) ==> Rescore(m) == m
  {
  }

  /**
   * Between two consistent records that differ in the rates only, the score
   * moves by each rate's change times its weight (the "lower is better"
   * rates with the opposite sign).
   */
  lemma ScoreDelta(a: Metrics, b: Metrics)
    requires Consistent(a) && Consistent(b)
    ensures b.cxScore - a.cxScore
         == 30.0 * (b.onTimeRate - a.onTimeRate) + 25.0 * (b.itemAccuracy - a.itemAccuracy)
          - 15.0 * (b.cancellationRate - a.cancellationRate) - 15.0 * (b.refundRate - a.refundRate)
          - 10.0 * (b.supportRate - a.supportRate) + 5.0 * (b.ratingProxy - a.ratingProxy)
  {
  }

  // ---------------------------------------------------------------------------
  // Batching reduction
  // ---------------------------------------------------------------------------

  /** On-time gain and cancellation drop per unit of batching-rate reduction. */
  const OnTimePerReduction: real := 0.15
  const CancellationPerReduction: real := 0.10
  /** Efficiency lost per unit of batching-rate reduction. */
  const EfficiencyPerReduction: real := 5.0
  const BatchingConfidence: real := 0.85

  datatype BatchingOutcome = BatchingOutcome(
    current: Metrics,
    simulated: Metrics,
    cxScoreDelta: real,
    onTimeRateDelta: real,
    cancellationRateDelta: real,
    efficiencyImpact: real,
    confidence: real)

  function Gain(rate: real, k: real): real { rate * k }

  /** The batching estimate over given current metrics. */
  function Batching(m: Metrics, currentRate: real, newRate: real): (o: BatchingOutcome) {
    var reduction := currentRate - newRate;
    var simulated := Rescore(m.(onTimeRate := Min(1.0, m.onTimeRate + Gain(reduction, OnTimePerReduction)),
                                cancellationRate := Max(0.0, m.cancellationRate
                                                             - Gain(reduction, CancellationPerReduction))));
    BatchingOutcome(m, simulated,
                    simulated.cxScore - m.cxScore,
                    simulated.onTimeRate - m.onTimeRate,
                    simulated.cancellationRate - m.cancellationRate,
                    -Gain(reduction, EfficiencyPerReduction),
                    BatchingConfidence)
  }

  /** `simulate_batching_reduction`: the estimate over the (cohort's) current metrics. */
  function SimulateBatchingReduction(t: Tables, currentRate: real, newRate: real,
                                     cohort: Option<seq<(string, Cell)>>): (o: BatchingOutcome)
    ensures o.current == CurrentMetrics(t, cohort)
    ensures o == Batching(o.current, currentRate, newRate)
  {
    Batching(CurrentMetrics(t, cohort), currentRate, newRate)
  }

  /**
   * The batching estimate moves only the on-time and cancellation rates (and
   * the score), clamped to [0, 1] on the side they move towards; the score is
   * re-weighted by the calculator's weights; and every delta is the change
   * the simulated record shows.
   */
  lemma BatchingFacts(m: Metrics, currentRate: real, newRate: real)
    ensures var o := Batching(m, currentRate, newRate);
      && o.current == m
      && o.simulated == m.(onTimeRate := o.simulated.onTimeRate, cancellationRate := o.simulated.cancellationRate,
                           cxScore := o.simulated.cxScore)
      && Consistent(o.simulated)
      && o.simulated.onTimeRate <= 1.0 && o.simulated.cancellationRate >= 0.0
      && o.onTimeRateDelta == o.simulated.onTimeRate - m.onTimeRate
      && o.cancellationRateDelta == o.simulated.cancellationRate - m.cancellationRate
      && o.onTimeRateDelta <= 0.15 * (currentRate - newRate)
      && (m.onTimeRate + 0.15 * (currentRate - newRate) <= 1.0 ==> o.onTimeRateDelta == 0.15 * (currentRate - newRate))
      && o.cancellationRateDelta >= -0.10 * (currentRate - newRate)
      && o.efficiencyImpact == -5.0 * (currentRate - newRate)
      && o.confidence == 0.85
  {
    RescoreAgrees(m.(onTimeRate := Batching(m, currentRate, newRate).simulated.onTimeRate,
                     cancellationRate := Batching(m, currentRate, newRate).simulated.cancellationRate));
  }

  /**
   * For a consistent starting record the score change is the on-time change
   * at weight 30 less the cancellation change at weight 15; a genuine
   * reduction (new rate not above the current one) costs efficiency and,
   * from rates in [0, 1], never lowers the score or the on-time rate, never
   * raises cancellations, and keeps the rates in [0, 1].
   */
  lemma BatchingReductionHelps(m: Metrics, currentRate: real, newRate: real)
    requires Consistent(m)
    ensures var o := Batching(m, currentRate, newRate);
      && o.cxScoreDelta == 30.0 * o.onTimeRateDelta - 15.0 * o.cancellationRateDelta
      && (newRate <= currentRate ==> o.efficiencyImpact <= 0.0)
      && (newRate <= currentRate && UnitRates(RatesOf(m)) ==>
            o.onTimeRateDelta >= 0.0 && o.cancellationRateDelta <= 0.0 && o.cxScoreDelta >= 0.0
            && UnitRates(RatesOf(o.simulated)))
      && (o.efficiencyImpact < 0.0 <==> newRate < currentRate)
  {
    var o := Batching(m, currentRate, newRate);
    BatchingFacts(m, currentRate, newRate);
    ScoreDelta(m, o.simulated);
  }

  /** Only the size of the reduction matters, not the two rates themselves. */
  lemma BatchingByReduction(m: Metrics, currentRate: real, newRate: real, shift: real)
    ensures Batching(m, currentRate + shift, newRate + shift) == Batching(m, currentRate, newRate)
  {
    assert (currentRate + shift) - (newRate + shift) == currentRate - newRate;
  }

  /** A larger reduction never gives a lower on-time rate, more cancellations or a lower score. */
  lemma BatchingMonotone(m: Metrics, c1: real, n1: real, c2: real, n2: real)
    requires c1 - n1 <= c2 - n2
    ensures var a := Batching(m, c1, n1); var b := Batching(m, c2, n2);
      && a.simulated.onTimeRate <= b.simulated.onTimeRate
      && a.simulated.cancellationRate >= b.simulated.cancellationRate
      && a.simulated.cxScore <= b.simulated.cxScore
      && a.efficiencyImpact >= b.efficiencyImpact
  {
    var a := Batching(m, c1, n1);
    var b := Batching(m, c2, n2);
    BatchingFacts(m, c1, n1);
    BatchingFacts(m, c2, n2);
    CxScoreMonotone(RatesOf(a.simulated), RatesOf(b.simulated));
  }

  // ---------------------------------------------------------------------------
  // ETA buffer
  // ---------------------------------------------------------------------------

  /** On-time gain per hour of buffer, and its cap. */
  const OnTimePerBufferHour: real := 0.05
  const MaxBufferGain: real := 0.1
  const EtaConfidence: real := 0.75

  datatype EtaOutcome = EtaOutcome(
    current: Metrics,
    simulated: Metrics,
    cxScoreDelta: real,
    onTimeRateDelta: real,
    waitTimeImpact: real,
    efficiencyImpact: real,
    confidence: real)

  /** The on-time gain a buffer of this many minutes is assumed to buy. */
  function BufferGain(bufferMinutes: real): real {
    Min(MaxBufferGain, bufferMinutes / 60.0 * OnTimePerBufferHour)
  }

  /** The gain grows with the buffer up to 0.1, reached at two hours. */
  lemma BufferGainFacts(b: real, b': real)
    ensures BufferGain(b) <= 0.1
    ensures BufferGain(b) == 0.1 <==> b >= 120.0
    ensures b >= 0.0 ==> BufferGain(b) >= 0.0
    ensures b <= 120.0 ==> BufferGain(b) == b / 1200.0
    ensures b <= b' ==> BufferGain(b) <= BufferGain(b')
  {
  }

  /** The ETA-buffer estimate over given current metrics. */
  function EtaBuffer(m: Metrics, bufferMinutes: real): (o: EtaOutcome) {
    var simulated := Rescore(m.(onTimeRate := Min(1.0, m.onTimeRate + BufferGain(bufferMinutes))));
    EtaOutcome(m, simulated,
               simulated.cxScore - m.cxScore,
               simulated.onTimeRate - m.onTimeRate,
               bufferMinutes, 0.0, EtaConfidence)
  }

  /** `simulate_eta_buffer`: the estimate over the (cohort's) current metrics. */
  function SimulateEtaBuffer(t: Tables, bufferMinutes: real, cohort: Option<seq<(string, Cell)>>): (o: EtaOutcome)
    ensures o.current == CurrentMetrics(t, cohort)
    ensures o == EtaBuffer(o.current, bufferMinutes)
  {
    EtaBuffer(CurrentMetrics(t, cohort), bufferMinutes)
  }

  /**
   * The buffer moves only the on-time rate (capped at 1) and the score; the
   * customer waits the buffer longer, efficiency is untouched; for a
   * consistent record the score moves by 30 times the on-time change, and a
   * non-negative buffer never lowers it and keeps rates in [0, 1].
   */
  lemma EtaBufferFacts(m: Metrics, bufferMinutes: real)
    ensures var o := EtaBuffer(m, bufferMinutes);
      && o.current == m
      && o.simulated == m.(onTimeRate := o.simulated.onTimeRate, cxScore := o.simulated.cxScore)
      && Consistent(o.simulated)
      && o.simulated.onTimeRate <= 1.0
      && o.onTimeRateDelta == o.simulated.onTimeRate - m.onTimeRate
      && o.onTimeRateDelta <= 0.1 && o.onTimeRateDelta <= BufferGain(bufferMinutes)
      && o.waitTimeImpact == bufferMinutes
      && o.efficiencyImpact == 0.0 && o.confidence == 0.75
      && (Consistent(m) ==> o.cxScoreDelta == 30.0 * o.onTimeRateDelta)
      && (bufferMinutes >= 0.0 && m.onTimeRate <= 1.0 ==> o.onTimeRateDelta >= 0.0)
      && (bufferMinutes >= 0.0 && Consistent(m) && m.onTimeRate <= 1.0 ==> o.cxScoreDelta >= 0.0)
      && (bufferMinutes >= 0.0 && UnitRates(RatesOf(m)) ==> UnitRates(RatesOf(o.simulated)))
  {
    var o := EtaBuffer(m, bufferMinutes);
    BufferGainFacts(bufferMinutes, bufferMinutes);
    RescoreAgrees(m.(onTimeRate := o.simulated.onTimeRate));
    if Consistent(m) {
      ScoreDelta(m, o.simulated);
    }
  }

  /** Past two hours a longer buffer buys no further punctuality: only the wait grows. */
  lemma EtaBufferSaturates(m: Metrics, b: real, b': real)
    requires 120.0 <= b <= b'
    ensures EtaBuffer(m, b).simulated == EtaBuffer(m, b').simulated
    ensures EtaBuffer(m, b').waitTimeImpact - EtaBuffer(m, b).waitTimeImpact == b' - b
  {
    BufferGainFacts(b, b');
    BufferGainFacts(b', b');
  }

  // ---------------------------------------------------------------------------
  // SKU suppression
  // ---------------------------------------------------------------------------

  /** Assumed share of items below the threshold, and the effects per suppressed share. */
  const SuppressionRate: real := 0.2
  const RefundShare: real := 0.3
  const AccuracyShare: real := 0.1
  const SkuConfidence: real := 0.70

  datatype SkuOutcome = SkuOutcome(
    current: Metrics,
    simulated: Metrics,
    cxScoreDelta: real,
    refundRateDelta: real,
    itemAccuracyDelta: real,
    coverageImpact: real,
    efficiencyImpact: real,
    confidence: real)

  /**
   * The SKU-suppression estimate over given current metrics. The threshold
   * is accepted but plays no part: the suppressed share is a fixed 20%.
   */
  function SkuSuppression(m: Metrics, threshold: real): (o: SkuOutcome) {
    var refundReduction := SuppressionRate * RefundShare;
    var accuracyImprovement := SuppressionRate * AccuracyShare;
    var simulated := Rescore(m.(refundRate := Max(0.0, m.refundRate - refundReduction),
                                itemAccuracy := Min(1.0, m.itemAccuracy + accuracyImprovement)));
    SkuOutcome(m, simulated,
               simulated.cxScore - m.cxScore,
               simulated.refundRate - m.refundRate,
               accuracyImprovement,
               -SuppressionRate * 100.0,
               0.0, SkuConfidence)
  }

  /** `simulate_sku_suppression`: the estimate over the (cohort's) current metrics. */
  function SimulateSkuSuppression(t: Tables, threshold: real, cohort: Option<seq<(string, Cell)>>): (o: SkuOutcome)
    ensures o.current == CurrentMetrics(t, cohort)
    ensures o == SkuSuppression(o.current, threshold)
  {
    SkuSuppression(CurrentMetrics(t, cohort), threshold)
  }

  /**
   * Suppression moves only the refund rate (down by at most 0.06, not below
   * 0) and item accuracy (up by at most 0.02, not above 1) and the score;
   * the reported accuracy delta is the full 0.02 whatever the clamp let
   * through; coverage drops by 20 points; for a consistent record the score
   * moves by 25 times the accuracy change less 15 times the refund change.
   */
  lemma SkuSuppressionFacts(m: Metrics, threshold: real)
    ensures var o := SkuSuppression(m, threshold);
      && o.current == m
      && o.simulated == m.(refundRate := o.simulated.refundRate, itemAccuracy := o.simulated.itemAccuracy,
                           cxScore := o.simulated.cxScore)
      && Consistent(o.simulated)
      && o.simulated.refundRate >= 0.0 && o.simulated.itemAccuracy <= 1.0
      && o.refundRateDelta == o.simulated.refundRate - m.refundRate
      && (m.refundRate >= 0.0 ==> -0.06 <= o.refundRateDelta <= 0.0)
      && (m.refundRate >= 0.06 ==> o.refundRateDelta == -0.06)
      && o.itemAccuracyDelta == 0.02
      && o.simulated.itemAccuracy - m.itemAccuracy <= o.itemAccuracyDelta
      && (o.simulated.itemAccuracy - m.itemAccuracy == o.itemAccuracyDelta <==> m.itemAccuracy <= 0.98)
      && o.coverageImpact == -20.0 && o.efficiencyImpact == 0.0 && o.confidence == 0.70
      && (Consistent(m) ==>
            o.cxScoreDelta == 25.0 * (o.simulated.itemAccuracy - m.itemAccuracy) - 15.0 * o.refundRateDelta)
      && (UnitRates(RatesOf(m)) ==> UnitRates(RatesOf(o.simulated)))
      && (Consistent(m) && UnitRates(RatesOf(m)) ==> o.cxScoreDelta >= 0.0)
  {
    var o := SkuSuppression(m, threshold);
    RescoreAgrees(m.(refundRate := o.simulated.refundRate, itemAccuracy := o.simulated.itemAccuracy));
    if Consistent(m) {
      ScoreDelta(m, o.simulated);
    }
  }

  /** The threshold argument never changes the estimate. */
  lemma SkuThresholdIgnored(t: Tables, th: real, th': real, cohort: Option<seq<(string, Cell)>>)
    ensures SimulateSkuSuppression(t, th, cohort) == SimulateSkuSuppression(t, th', cohort)
  {
  }

  // ---------------------------------------------------------------------------
  // Dispatch by action name
  // ---------------------------------------------------------------------------

  /** What `simulate_action` returns: one of the three estimates or an error message. */
  datatype Simulation =
    | BatchingResult(batching: BatchingOutcome)
    | EtaResult(eta: EtaOutcome)
    | SkuResult(sku: SkuOutcome)
    | UnknownAction(error: string)

  /** `params.get(key, default)`. */
  function Param(params: map<string, real>, key: string, default: real): real {
    if key in params then params[key] else default
  }

  /** The routing test of each estimate, on the lower-cased name, in priority order. */
  predicate NamesBatching(name: string) { Contains(Lower(name), "batching") }
  predicate NamesEta(name: string) { Contains(Lower(name), "eta") || Contains(Lower(name), "buffer") }
  predicate NamesSku(name: string) { Contains(Lower(name), "sku") || Contains(Lower(name), "suppress") }

  /** `simulate_action`: route an action name to its estimate, with each parameter's default. */
  function SimulateAction(name: string, t: Tables, params: map<string, real>,
                          cohort: Option<seq<(string, Cell)>>): (r: Simulation)
  {
    if NamesBatching(name) then
      BatchingResult(SimulateBatchingReduction(t, Param(params, "current_rate", 0.5), Param(params, "new_rate", 0.3), cohort))
    else if NamesEta(name) then
      EtaResult(SimulateEtaBuffer(t, Param(params, "buffer_minutes", 5.0), cohort))
    else if NamesSku(name) then
      SkuResult(SimulateSkuSuppression(t, Param(params, "threshold", 0.3), cohort))
    else
      UnknownAction("Unknown action: " + name)
  }

  /**
   * Routing by name: batching wins over the ETA buffer, which wins over SKU
   * suppression; a name naming none of them yields the error message
   * carrying the name; each estimate is run with the caller's parameter or
   * its default.
   */
  lemma SimulateActionRoutes(name: string, t: Tables, params: map<string, real>,
                             cohort: Option<seq<(string, Cell)>>)
    ensures var r := SimulateAction(name, t, params, cohort);
      && (r.BatchingResult? <==> NamesBatching(name))
      && (r.EtaResult? <==> !NamesBatching(name) && NamesEta(name))
      && (r.SkuResult? <==> !NamesBatching(name) && !NamesEta(name) && NamesSku(name))
      && (r.UnknownAction? <==> !NamesBatching(name) && !NamesEta(name) && !NamesSku(name))
      && (r.UnknownAction? ==> r.error == "Unknown action: " + name)
      && (r.BatchingResult? && params == map[] ==> r.batching == Batching(CurrentMetrics(t, cohort), 0.5, 0.3))
      && (r.EtaResult? && params == map[] ==> r.eta == EtaBuffer(CurrentMetrics(t, cohort), 5.0))
      && (r.SkuResult? ==> r.sku == SkuSuppression(CurrentMetrics(t, cohort), 0.3))
  {
  }
}
