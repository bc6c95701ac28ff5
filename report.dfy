/**
 * The root-cause report: each relevant hypothesis is scored as confidence
 * times impact, the results are ranked, and a narrative and a summary are
 * written from the top of the ranking.
 *
 * SHAP importances, diff-in-diff and correlation results are the evidence
 * gathered for a hypothesis; they enter as parameters. Number formatting
 * (`:.0%`, `:.2f`, `:.3f`) enters as formatting functions.
 */
module RcaReport {
  import opened Wrappers
  import opened Stats
  import opened Lists
  import opened Strings
  import opened Hypotheses
  import opened CausalChecks

  /** The outcome column analysed for a regressed metric; `is_late` unless the metric is about cancellations or refunds. */
  function OutcomeColumn(metric: string): (c: string)
    ensures c == "is_late" || c == "canceled_flag" || c == "has_refund"
    ensures c == "canceled_flag" <==> metric == "cancellation_rate"
    ensures c == "has_refund" <==> metric == "refund_rate"
  {
    if metric == "cx_score" then "is_late"
    else if metric == "on_time_rate" then "is_late"
    else if metric == "cancellation_rate" then "canceled_flag"
    else if metric == "refund_rate" then "has_refund"
    else "is_late"
  }

  /** Five minutes, in seconds. */
  const LateThresholdSeconds: int := 300

  /** One merged order/delivery row: the promised ETA and the actual ETA if the order was delivered. */
  datatype EtaRow = EtaRow(promisedEta: int, actualEta: Option<int>)

  /** A merged row is late iff it was delivered more than five minutes after the promise. */
  predicate IsLate(row: EtaRow) {
    row.actualEta.Some? && row.actualEta.value - row.promisedEta > LateThresholdSeconds
  }

  /** The merge's own labels 0, 1, ... of the rows that have an actual ETA. */
  predicate Delivered(merged: seq<EtaRow>, i: int) {
    0 <= i < |merged| && merged[i].actualEta.Some?
  }

  /**
   * `_calculate_late_flag`: one flag per label of the deliveries frame. The
   * left merge numbers its rows 0, 1, ..., and the flags of the delivered
   * rows are written at those numbers of a series indexed by the deliveries'
   * labels, so the delivery labelled i gets merged row i's flag, and a
   * delivered row whose number is not a delivery label makes the write raise
   * (None). With no delivered row every flag is False.
   */
  function LateFlags(merged: seq<EtaRow>, labels: seq<int>): (flags: Option<seq<bool>>)
  {
    if forall i :: 0 <= i < |merged| && merged[i].actualEta.Some? ==> i in labels then
      Some(seq(|labels|, j requires 0 <= j < |labels| => 0 <= labels[j] < |merged| && IsLate(merged[labels[j]])))
    else
      None
  }

  /**
   * The write raises iff some delivered row's number is not a delivery label;
   * otherwise there is one flag per delivery, and a delivery is flagged iff
   * its label numbers a merged row that is late. A delivery whose label
   * numbers no delivered row keeps False.
   */
  lemma LateFlagsFacts(merged: seq<EtaRow>, labels: seq<int>)
    ensures LateFlags(merged, labels).None? <==> exists i :: Delivered(merged, i) && i !in labels
    ensures LateFlags(merged, labels).Some? ==>
              |LateFlags(merged, labels).value| == |labels|
              && forall j :: 0 <= j < |labels| ==>
                   (LateFlags(merged, labels).value[j] <==> Delivered(merged, labels[j]) && IsLate(merged[labels[j]]))
    ensures (forall i :: !Delivered(merged, i)) ==>
              LateFlags(merged, labels).Some? && forall j :: 0 <= j < |labels| ==> !LateFlags(merged, labels).value[j]
  {
  }

  /**
   * When the deliveries keep the labels 0, 1, ... and are in the merge's row
   * order, as for frames read from scratch with one delivery per order, the
   * k-th delivery is flagged iff the k-th merged row is late.
   */
  lemma LateFlagsAligned(merged: seq<EtaRow>, labels: seq<int>)
    requires |labels| == |merged|
    requires forall j :: 0 <= j < |labels| ==> labels[j] == j
    ensures LateFlags(merged, labels).Some?
    ensures forall k :: 0 <= k < |merged| ==> (LateFlags(merged, labels).value[k] <==> IsLate(merged[k]))
  {
    forall i | Delivered(merged, i)
      ensures i in labels
    {
      assert labels[i] == i;
    }
  }

  /**
   * A window of the deliveries keeps its original labels: with labels 5 and
   * 6 and one delivered merged row, row 0's number is not a label and the
   * write raises. With the labels swapped, the late row's flag lands on the
   * other delivery.
   */
  lemma LateFlagsFollowLabels()
    ensures LateFlags([EtaRow(0, Some(1000)), EtaRow(0, None)], [5, 6]).None?
    ensures LateFlags([EtaRow(0, Some(1000)), EtaRow(0, Some(0))], [1, 0]) == Some([false, true])
  {
    assert Delivered([EtaRow(0, Some(1000)), EtaRow(0, None)], 0);
    var merged := [EtaRow(0, Some(1000)), EtaRow(0, Some(0))];
    assert forall i | Delivered(merged, i) :: i in [1, 0];
    var flags := LateFlags(merged, [1, 0]);
    assert |flags.value| == 2 && !flags.value[0] && flags.value[1];
    assert flags.value == [false, true];
  }

  /** Delivering earlier never turns an on-time row late, and an undelivered row is never late. */
  lemma LateFlagMonotone(promised: int, early: int, late: int)
    requires early <= late
    ensures IsLate(EtaRow(promised, Some(early))) ==> IsLate(EtaRow(promised, Some(late)))
    ensures !IsLate(EtaRow(promised, None))
  {
  }

  /**
   * The evidence gathered for a hypothesis: the SHAP importance map (None
   * when the analysis failed), the diff-in-diff check if one was made, and
   * the temporal correlation if one was computed.
   */
  datatype Evidence = Evidence(
    shap: Option<seq<(string, real)>>,
    did: Option<Result<DidResult, string>>,
    correlation: Option<Correlation>)

  /** A tested hypothesis with its evidence and scores. */
  datatype Cause = Cause(hypothesis: Hypothesis, evidence: Evidence, confidence: real, impact: real, score: real)

  /** Position of the item `max(items, key=value)` returns: the first one with the largest value. */
  function TopIndex(items: seq<(string, real)>): (k: nat)
    requires |items| > 0
    ensures k < |items|
    ensures forall j :: 0 <= j < |items| ==> items[j].1 <= items[k].1
    ensures forall j :: 0 <= j < k ==> items[j].1 < items[k].1
  {
    if |items| == 1 then 0
    else
      var k := TopIndex(items[..|items| - 1]);
      if items[|items| - 1].1 > items[k].1 then |items| - 1 else k
  }

  /** Impact when no importance is known. */
  const DefaultImpact: real := 0.5

  /** The impact of a hypothesis: the top SHAP importance, or 0.5 when there is none. */
  function Impact(shap: seq<(string, real)>): (r: real)
    ensures |shap| == 0 ==> r == DefaultImpact
    ensures |shap| > 0 ==> r == MaxOf(Values(shap))
  {
    if |shap| == 0 then DefaultImpact
    else
      var k := TopIndex(shap);
      var m := MaxOf(Values(shap));
      assert Values(shap)[k] == shap[k].1;
      assert exists j :: 0 <= j < |shap| && Values(shap)[j] == m;
      shap[k].1
  }

  /** `_test_hypothesis` once the evidence is in: the confidence score, the impact and their product. */
  function TestHypothesis(h: Hypothesis, e: Evidence): (c: Cause)
    ensures c.hypothesis == h && c.evidence == e
    ensures c.confidence == ConfidenceScore(e.shap.GetOr([]), e.did, e.correlation)
    ensures c.impact == Impact(e.shap.GetOr([]))
    ensures c.score == Score(c.confidence, c.impact)
  {
    var shap := e.shap.GetOr([]);
    var confidence := ConfidenceScore(shap, e.did, e.correlation);
    var impact := Impact(shap);
    Cause(h, e, confidence, impact, Score(confidence, impact))
  }

  /** The ranking score: confidence times impact. */
  function Score(confidence: real, impact: real): real {
    confidence * impact
  }

  /**
   * With non-negative importances the score is non-negative and at most
   * the impact, since the confidence lies in [0, 1].
   */
  lemma ScoreBounds(h: Hypothesis, e: Evidence)
    requires e.shap.Some? ==> forall j :: 0 <= j < |e.shap.value| ==> e.shap.value[j].1 >= 0.0
    ensures 0.0 <= TestHypothesis(h, e).score <= TestHypothesis(h, e).impact
  {
    var shap := e.shap.GetOr([]);
    var confidence := ConfidenceScore(shap, e.did, e.correlation);
    var impact := Impact(shap);
    assert TestHypothesis(h, e) == Cause(h, e, confidence, impact, Score(confidence, impact));
    assert forall j :: 0 <= j < |shap| ==> shap[j].1 >= 0.0;
    ConfidenceScoreBounds(shap, e.did, e.correlation);
    if |shap| > 0 {
      assert Values(shap)[0] <= MaxOf(Values(shap));
    }
    ProductBelow(confidence, impact);
  }

  /** A factor in [0, 1] scales a non-negative number down. */
  lemma ProductBelow(f: real, m: real)
    requires 0.0 <= f <= 1.0 && m >= 0.0
    ensures 0.0 <= Score(f, m) <= m
  {
    MulNonNegative(f, m);
    MulNonNegative(1.0 - f, m);
    assert m - f * m == (1.0 - f) * m;
  }

  /** A cause with the rank `_rank_hypotheses` writes into it. */
  datatype RankedCause = RankedCause(cause: Cause, rank: nat)

  /** Sort key of the ranking. */
  function ScoreKey(c: Cause): seq<real> { [c.score] }

  /** `_rank_hypotheses`: a stable descending sort by score, then ranks 1, 2, 3, … in that order. */
  function Rank(results: seq<Cause>): (r: seq<RankedCause>)
    ensures |r| == |results|
  {
    var sorted := SortDesc(results, ScoreKey);
    seq(|sorted|, i requires 0 <= i < |sorted| => RankedCause(sorted[i], i + 1))
  }

  /** The causes of a ranking, without their ranks. */
  function CausesOf(r: seq<RankedCause>): (cs: seq<Cause>)
    ensures |cs| == |r| && forall i :: 0 <= i < |r| ==> cs[i] == r[i].cause
  {
    seq(|r|, i requires 0 <= i < |r| => r[i].cause)
  }

  /**
   * The ranking is a permutation of the results, ordered by non-increasing
   * score, with rank `position + 1`, and causes of equal score keep their
   * input order.
   */
  lemma RankFacts(results: seq<Cause>)
    ensures var r := Rank(results);
            multiset(CausesOf(r)) == multiset(results)
            && (forall i, j :: 0 <= i < j < |r| ==> r[i].cause.score >= r[j].cause.score)
            && (forall i :: 0 <= i < |r| ==> r[i].rank == i + 1)
    ensures forall s: real :: KeyClass(CausesOf(Rank(results)), ScoreKey, [s]) == KeyClass(results, ScoreKey, [s])
  {
    var sorted := SortDesc(results, ScoreKey);
    assert CausesOf(Rank(results)) == sorted;
    SortDescSorted(results, ScoreKey);
    forall i, j | 0 <= i < j < |sorted| ensures sorted[i].score >= sorted[j].score {
      assert !LexGt(ScoreKey(sorted[j]), ScoreKey(sorted[i]));
    }
    forall s: real ensures KeyClass(sorted, ScoreKey, [s]) == KeyClass(results, ScoreKey, [s]) {
      SortDescStable(results, ScoreKey, [s]);
    }
  }

  /** `_rank_hypotheses` as the source writes it: sort, then number the results in a loop. */
  method RankHypotheses(results: seq<Cause>) returns (ranked: seq<RankedCause>)
    ensures ranked == Rank(results)
  {
    var sorted := SortDesc(results, ScoreKey);
    ranked := [];
    for i := 0 to |sorted|
      invariant ranked == Rank(results)[..i]
    {
      ranked := ranked + [RankedCause(sorted[i], i + 1)];
    }
  }

  /** Confidence above which the second cause is mentioned. */
  const SecondaryConfidence: real := 0.5

  /** The second cause is worth mentioning. */
  predicate HasSecondary(ranked: seq<RankedCause>) {
    |ranked| > 1 && ranked[1].cause.confidence > SecondaryConfidence
  }

  const HeadlineOpening: string := "Root cause analysis identified "

  /** The rest of the opening sentence after the top cause's name. */
  function HeadlineTail(top: Cause, percent: real -> string): string {
    " as the most likely cause " + "(confidence: " + percent(top.confidence) + "). "
  }

  /** The opening sentence naming the top cause. */
  function Headline(top: Cause, percent: real -> string): string {
    HeadlineOpening + top.hypothesis.name + HeadlineTail(top, percent)
  }

  /** The SHAP sentence, when a non-empty importance map was computed. */
  function ShapSentence(e: Evidence): string {
    if e.shap.Some? && |e.shap.value| > 0 then
      "SHAP analysis shows " + e.shap.value[TopIndex(e.shap.value)].0 + " is the top driver. "
    else ""
  }

  /** The diff-in-diff sentence, when the analysis is present and found a significant effect. */
  function DidSentence(e: Evidence, fixed3: real -> string): string {
    if e.did.Some? && e.did.value.Ok? && e.did.value.value.significant then
      "Diff-in-diff analysis confirms significant impact (p=" + fixed3(e.did.value.value.pValue) + "). "
    else ""
  }

  /** The sentence about the second cause, when it is worth mentioning. */
  function SecondarySentence(ranked: seq<RankedCause>, percent: real -> string): string {
    if HasSecondary(ranked) then
      ranked[1].cause.hypothesis.name + " is a secondary factor "
      + "(confidence: " + percent(ranked[1].cause.confidence) + "). "
    else ""
  }

  const NoHypothesesNarrative: string := "No hypotheses could be tested."

  /** `_generate_narrative`. */
  function Narrative(ranked: seq<RankedCause>, percent: real -> string, fixed3: real -> string): string {
    if |ranked| == 0 then NoHypothesesNarrative
    else
      var top := ranked[0].cause;
      Headline(top, percent) + ShapSentence(top.evidence) + DidSentence(top.evidence, fixed3)
      + SecondarySentence(ranked, percent)
  }

  /**
   * An empty ranking has the fixed narrative; without a second cause worth
   * mentioning the narrative ends with the top cause's evidence.
   */
  lemma NarrativeShape(ranked: seq<RankedCause>, percent: real -> string, fixed3: real -> string)
    ensures |ranked| == 0 ==> Narrative(ranked, percent, fixed3) == NoHypothesesNarrative
    ensures |ranked| > 0 && !HasSecondary(ranked) ==>
              Narrative(ranked, percent, fixed3)
              == Headline(ranked[0].cause, percent) + ShapSentence(ranked[0].cause.evidence)
                 + DidSentence(ranked[0].cause.evidence, fixed3)
  {
  }

  /** A non-empty ranking's narrative opens with the headline's opening and the top cause's name. */
  lemma NarrativeOpening(ranked: seq<RankedCause>, percent: real -> string, fixed3: real -> string)
    requires |ranked| > 0
    ensures IsPrefix(HeadlineOpening + ranked[0].cause.hypothesis.name, Narrative(ranked, percent, fixed3))
  {
    var top := ranked[0].cause;
    var opening := HeadlineOpening + top.hypothesis.name;
    var h := Headline(top, percent);
    var hs := h + ShapSentence(top.evidence);
    var hsd := hs + DidSentence(top.evidence, fixed3);
    assert Narrative(ranked, percent, fixed3) == hsd + SecondarySentence(ranked, percent);
    assert h == opening + HeadlineTail(top, percent);
    assert h[..|opening|] == opening;
    assert hs[..|opening|] == opening;
    assert hsd[..|opening|] == opening;
    assert (hsd + SecondarySentence(ranked, percent))[..|opening|] == opening;
  }

  /** The narrative of a non-empty ranking names the top cause. */
  lemma NarrativeNamesTop(ranked: seq<RankedCause>, percent: real -> string, fixed3: real -> string)
    requires |ranked| > 0
    ensures Contains(Narrative(ranked, percent, fixed3), ranked[0].cause.hypothesis.name)
  {
    var name := ranked[0].cause.hypothesis.name;
    var text := Narrative(ranked, percent, fixed3);
    NarrativeOpening(ranked, percent, fixed3);
    assert text[|HeadlineOpening|..|HeadlineOpening| + |name|] == (HeadlineOpening + name)[|HeadlineOpening|..];
    ContainsAt(text, name, |HeadlineOpening|);
  }

  /** The second cause is named in the narrative when its confidence exceeds 0.5. */
  lemma NarrativeNamesSecondary(ranked: seq<RankedCause>, percent: real -> string, fixed3: real -> string)
    requires HasSecondary(ranked)
    ensures Contains(Narrative(ranked, percent, fixed3), ranked[1].cause.hypothesis.name + " is a secondary factor ")
  {
    var top := ranked[0].cause;
    var front := Headline(top, percent) + ShapSentence(top.evidence) + DidSentence(top.evidence, fixed3);
    var sec := SecondarySentence(ranked, percent);
    var clause := ranked[1].cause.hypothesis.name + " is a secondary factor ";
    assert Narrative(ranked, percent, fixed3) == front + sec;
    SecondaryOpensWithClause(ranked, percent);
    assert (front + sec)[|front|..|front| + |clause|] == sec[..|clause|];
    ContainsAt(front + sec, clause, |front|);
  }

  /** The secondary sentence opens with the second cause's name. */
  lemma SecondaryOpensWithClause(ranked: seq<RankedCause>, percent: real -> string)
    requires HasSecondary(ranked)
    ensures IsPrefix(ranked[1].cause.hypothesis.name + " is a secondary factor ", SecondarySentence(ranked, percent))
  {
    var clause := ranked[1].cause.hypothesis.name + " is a secondary factor ";
    var a := clause + "(confidence: ";
    var b := a + percent(ranked[1].cause.confidence);
    assert SecondarySentence(ranked, percent) == b + "). ";
    assert a[..|clause|] == clause;
    assert b[..|clause|] == clause;
    assert (b + "). ")[..|clause|] == clause;
  }

  const NoCausesSummary: string := "No root causes identified."
  const SummaryOpening: string := "Most of the CX drop comes from "

  /** `_generate_summary`. */
  function Summary(ranked: seq<RankedCause>): string {
    if |ranked| == 0 then NoCausesSummary
    else
      SummaryOpening + Lower(ranked[0].cause.hypothesis.name)
      + (if HasSecondary(ranked) then " and " + Lower(ranked[1].cause.hypothesis.name) else "")
      + "."
  }

  /**
   * The summary of a non-empty ranking opens with the lower-cased top
   * cause and ends with a full stop; the lower-cased second cause follows
   * after " and " exactly when its confidence exceeds 0.5.
   */
  lemma SummaryFacts(ranked: seq<RankedCause>)
    ensures |ranked| == 0 ==> Summary(ranked) == NoCausesSummary
    ensures |ranked| > 0 ==>
              IsPrefix(SummaryOpening + Lower(ranked[0].cause.hypothesis.name), Summary(ranked))
              && Summary(ranked)[|Summary(ranked)| - 1] == '.'
    ensures |ranked| > 0 && HasSecondary(ranked) ==>
              Contains(Summary(ranked), " and " + Lower(ranked[1].cause.hypothesis.name) + ".")
    ensures |ranked| > 0 && !HasSecondary(ranked) ==>
              Summary(ranked) == SummaryOpening + Lower(ranked[0].cause.hypothesis.name) + "."
  {
    if |ranked| > 0 {
      var s := Summary(ranked);
      var head := SummaryOpening + Lower(ranked[0].cause.hypothesis.name);
      assert s[..|head|] == head;
      if HasSecondary(ranked) {
        var tail := " and " + Lower(ranked[1].cause.hypothesis.name) + ".";
        assert s == head + tail;
        assert s[|head|..|head| + |tail|] == tail;
        ContainsAt(s, tail, |head|);
      }
    }
  }

  /** The report; the generation timestamp is left out. */
  datatype Report = Report(
    incidentId: string,
    incidentMetric: string,
    hypothesesTested: nat,
    rankedCauses: seq<RankedCause>,
    topCause: Option<RankedCause>,
    narrative: string,
    summary: string)

  /** Each hypothesis tested against its evidence, in order. */
  function TestAll(hs: seq<Hypothesis>, evidenceFor: Hypothesis -> Evidence): (cs: seq<Cause>)
    ensures |cs| == |hs|
    ensures forall i :: 0 <= i < |hs| ==>
              cs[i] == TestHypothesis(hs[i], evidenceFor(hs[i])) && cs[i].hypothesis == hs[i]
  {
    if |hs| == 0 then [] else TestAll(hs[..|hs| - 1], evidenceFor) + [TestHypothesis(hs[|hs| - 1], evidenceFor(hs[|hs| - 1]))]
  }

  /** Ranking only reorders the results, so every ranked cause is one of the tested hypotheses. */
  lemma RankedFromTested(hs: seq<Hypothesis>, evidenceFor: Hypothesis -> Evidence)
    ensures var r := Rank(TestAll(hs, evidenceFor));
            forall i :: 0 <= i < |r| ==> r[i].cause.hypothesis in hs
  {
    var results := TestAll(hs, evidenceFor);
    var r := Rank(results);
    RankedInResults(results);
    TestedFromHypotheses(hs, evidenceFor);
    forall i | 0 <= i < |r| ensures r[i].cause.hypothesis in hs {
      assert r[i].cause in results;
    }
  }

  /** Every tested cause is about one of the hypotheses. */
  lemma TestedFromHypotheses(hs: seq<Hypothesis>, evidenceFor: Hypothesis -> Evidence)
    ensures forall c :: c in TestAll(hs, evidenceFor) ==> c.hypothesis in hs
  {
    var cs := TestAll(hs, evidenceFor);
    forall c | c in cs ensures c.hypothesis in hs {
      var k :| 0 <= k < |cs| && cs[k] == c;
      assert cs[k].hypothesis == hs[k];
    }
  }

  /** Every ranked cause is one of the results. */
  lemma RankedInResults(results: seq<Cause>)
    ensures forall i :: 0 <= i < |Rank(results)| ==> Rank(results)[i].cause in results
  {
    var r := Rank(results);
    RankFacts(results);
    forall i | 0 <= i < |r| ensures r[i].cause in results {
      assert r[i].cause == CausesOf(r)[i];
      assert r[i].cause in multiset(CausesOf(r));
    }
  }

  /** The loop of `generate_rca_report` that tests each hypothesis in turn. */
  method TestHypotheses(hs: seq<Hypothesis>, evidenceFor: Hypothesis -> Evidence) returns (results: seq<Cause>)
    ensures results == TestAll(hs, evidenceFor)
  {
    results := [];
    for i := 0 to |hs|
      invariant results == TestAll(hs[..i], evidenceFor)
    {
      assert hs[..i + 1][..i] == hs[..i];
      results := results + [TestHypothesis(hs[i], evidenceFor(hs[i]))];
    }
    assert hs[..|hs|] == hs;
  }

  /** `generate_rca_report`: test every relevant hypothesis with its evidence, rank, and describe. */
  method GenerateRcaReport(incidentId: string, incidentMetric: string, evidenceFor: Hypothesis -> Evidence,
                           percent: real -> string, fixed3: real -> string)
    returns (report: Report)
    ensures var hs := RelevantHypotheses(incidentMetric, []);
            report.hypothesesTested == |hs|
            && report.rankedCauses == Rank(TestAll(hs, evidenceFor))
            && multiset(CausesOf(report.rankedCauses)) == multiset(TestAll(hs, evidenceFor))
            && (forall i, j :: 0 <= i < j < |hs| ==> report.rankedCauses[i].cause.score >= report.rankedCauses[j].cause.score)
            && (forall i :: 0 <= i < |hs| ==>
                  report.rankedCauses[i].rank == i + 1 && report.rankedCauses[i].cause.hypothesis in hs)
            && (report.topCause.None? <==> |hs| == 0)
            && (report.topCause.Some? ==> report.topCause.value == report.rankedCauses[0] && report.topCause.value.rank == 1)
            && report.narrative == Narrative(report.rankedCauses, percent, fixed3)
            && report.summary == Summary(report.rankedCauses)
  {
    var hs := RelevantHypotheses(incidentMetric, []);
    report := ReportOn(incidentId, incidentMetric, hs, evidenceFor, percent, fixed3);
  }

  /** The body of `generate_rca_report` once the relevant hypotheses are known. */
  method ReportOn(incidentId: string, incidentMetric: string, hs: seq<Hypothesis>, evidenceFor: Hypothesis -> Evidence,
                  percent: real -> string, fixed3: real -> string)
    returns (report: Report)
    ensures report.hypothesesTested == |hs|
            && report.rankedCauses == Rank(TestAll(hs, evidenceFor))
            && multiset(CausesOf(report.rankedCauses)) == multiset(TestAll(hs, evidenceFor))
            && (forall i, j :: 0 <= i < j < |hs| ==> report.rankedCauses[i].cause.score >= report.rankedCauses[j].cause.score)
            && (forall i :: 0 <= i < |hs| ==>
                  report.rankedCauses[i].rank == i + 1 && report.rankedCauses[i].cause.hypothesis in hs)
            && (report.topCause.None? <==> |hs| == 0)
            && (report.topCause.Some? ==> report.topCause.value == report.rankedCauses[0] && report.topCause.value.rank == 1)
            && report.narrative == Narrative(report.rankedCauses, percent, fixed3)
            && report.summary == Summary(report.rankedCauses)
  {
    var results := TestHypotheses(hs, evidenceFor);
    var ranked := RankHypotheses(results);
    RankFacts(results);
    RankedFromTested(hs, evidenceFor);
    report := Report(incidentId, incidentMetric, |results|, ranked,
                     if |ranked| > 0 then Some(ranked[0]) else None,
                     Narrative(ranked, percent, fixed3), Summary(ranked));
  }

  /** `"c" * n`. */
  function Repeat(c: char, n: nat): (s: string)
    ensures |s| == n && forall i :: 0 <= i < n ==> s[i] == c
  {
    seq(n, i => c)
  }

  /** Causes shown in the formatted report. */
  const ShownCauses: nat := 5

  /** The six lines of one listed cause. */
  function CauseLines(position: nat, c: RankedCause, percent: real -> string, fixed2: real -> string,
                      fixed3: real -> string): seq<string>
  {
    [PadNum(position, 0) + ". " + c.cause.hypothesis.name,
     "   Category: " + c.cause.hypothesis.category,
     "   Confidence: " + percent(c.cause.confidence),
     "   Impact: " + fixed2(c.cause.impact),
     "   Score: " + fixed3(c.cause.score),
     ""]
  }

  /** The lines of the listed causes, numbered from `first`. */
  function CausesLines(causes: seq<RankedCause>, first: nat, percent: real -> string, fixed2: real -> string,
                       fixed3: real -> string): (lines: seq<string>)
    ensures |lines| == 6 * |causes|
  {
    if |causes| == 0 then []
    else CauseLines(first, causes[0], percent, fixed2, fixed3) + CausesLines(causes[1..], first + 1, percent, fixed2, fixed3)
  }

  /** `format_report` as its lines before they are joined with newlines; `generatedAt` is the timestamp's text. */
  function ReportLines(report: Report, generatedAt: string, percent: real -> string, fixed2: real -> string,
                       fixed3: real -> string): seq<string>
  {
    [Repeat('=', 60), "ROOT CAUSE ANALYSIS REPORT", Repeat('=', 60),
     "Incident ID: " + report.incidentId,
     "Metric: " + report.incidentMetric,
     "Generated: " + generatedAt,
     "",
     "SUMMARY", Repeat('-', 60), report.summary, "",
     "NARRATIVE", Repeat('-', 60), report.narrative, "",
     "RANKED CAUSES", Repeat('-', 60)]
    + CausesLines(Take(report.rankedCauses, ShownCauses), 1, percent, fixed2, fixed3)
  }

  /** At most five causes are listed: seventeen fixed lines and six per listed cause. */
  lemma ReportLinesCount(report: Report, generatedAt: string, percent: real -> string, fixed2: real -> string,
                         fixed3: real -> string)
    ensures var n := |report.rankedCauses|;
            |ReportLines(report, generatedAt, percent, fixed2, fixed3)| == 17 + 6 * (if n < 5 then n else 5)
  {
  }

  /** `format_report`. */
  function FormatReport(report: Report, generatedAt: string, percent: real -> string, fixed2: real -> string,
                        fixed3: real -> string): string
  {
    Join(ReportLines(report, generatedAt, percent, fixed2, fixed3), "\n")
  }
}
