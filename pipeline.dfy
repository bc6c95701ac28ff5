/**
 * The detection pipeline: metrics of a baseline and a current period,
 * a per-metric gate on the size of the change, and one incident, with its
 * top regressing slices, for every metric that passes the gate.
 */
module Pipeline {
  import opened Wrappers
  import opened Stats
  import opened Lists
  import opened Schema
  import opened CxMetrics
  import opened Cohorts
  import opened Slicing
  import opened Incidents

  /** Metrics checked when the caller names none. */
  const DefaultMetrics: seq<string> := ["cx_score", "on_time_rate", "cancellation_rate"]

  /** Smallest change of `cx_score`, in points, that opens an incident. */
  const CxScoreGate: real := 5.0

  /** Smallest relative change of any other metric, in percent, that opens an incident. */
  const RateGatePercent: real := 5.0

  /** Minimum orders per cohort, and number of slices attached to an incident. */
  const CohortMinOrders: int := 10
  const IncidentTopSlices: int := 5

  /** The keys of the period metrics that the model carries. */
  const PeriodMetricNames: seq<string> := [
    "cx_score", "on_time_rate", "on_time_score", "eta_mean_absolute_error", "eta_mean_error",
    "item_accuracy", "item_accuracy_score", "cancellation_rate", "cancellation_score",
    "refund_rate", "refund_score", "support_rate", "support_score", "rating_proxy",
    "rating_score", "mean_stars"]

  /**
   * `metrics.get(name)` on the period metrics: None for a name that is not
   * a key, and for `mean_stars` without ratings.
   */
  function PeriodValue(m: Metrics, name: string): (v: Option<real>)
    ensures v.Some? ==> name in PeriodMetricNames
    ensures name in PeriodMetricNames && name != "mean_stars" ==> v.Some?
    ensures name == "cx_score" ==> v == Some(m.cxScore)
  {
    if name in PeriodMetricNames then MetricGet(CohortMetrics([], m, 0), name) else None
  }

  /**
   * The gate: `cx_score` needs an absolute change of at least 5 points;
   * another metric needs a non-zero baseline and a change of at least 5%
   * of it.
   */
  predicate PassesGate(metricName: string, baseline: real, current: real) {
    var delta := current - baseline;
    if metricName == "cx_score" then Abs(delta) >= CxScoreGate
    else baseline != 0.0 && Abs(delta / baseline * 100.0) >= RateGatePercent
  }

  /** The gate without division: a rate passes when 100 times its change is at least 5 times its baseline. */
  lemma PassesGateMeaning(metricName: string, baseline: real, current: real)
    ensures metricName == "cx_score" ==> (PassesGate(metricName, baseline, current) <==> Abs(current - baseline) >= 5.0)
    ensures metricName != "cx_score" ==>
              (PassesGate(metricName, baseline, current) <==>
               baseline != 0.0 && 100.0 * Abs(current - baseline) >= 5.0 * Abs(baseline))
  {
    if metricName != "cx_score" && baseline != 0.0 {
      var delta := current - baseline;
      var q := delta / baseline;
      assert q * baseline == delta;
      AbsProduct(q, baseline);
      AbsProduct(q, 100.0);
      var a := Abs(q * 100.0);
      var m := Abs(baseline);
      assert a == Abs(q) * 100.0;
      assert Abs(delta) == Abs(q) * m;
      assert 100.0 * Abs(delta) == a * m;
      assert PassesGate(metricName, baseline, current) <==> a >= 5.0;
      if a >= 5.0 {
        ScaleOrdered(5.0, a, m);
        calc {
          100.0 * Abs(current - baseline);
        ==
          a * m;
        >=
          5.0 * m;
        }
      } else {
        MulPositive(5.0 - a, m);
        assert (5.0 - a) * m == 5.0 * m - a * m;
        calc {
          100.0 * Abs(current - baseline);
        ==
          a * m;
        <
          5.0 * m;
        }
      }
    }
  }

  lemma AbsProduct(x: real, y: real)
    ensures Abs(x * y) == Abs(x) * Abs(y)
  {
    if x < 0.0 && y >= 0.0 { MulNonNegative(-x, y); }
    if x >= 0.0 && y < 0.0 { MulNonNegative(x, -y); }
    if x < 0.0 && y < 0.0 { MulPositive(-x, -y); }
    if x >= 0.0 && y >= 0.0 { MulNonNegative(x, y); }
  }

  /**
   * A period: its orders by order time, and the rows of the other tables
   * that belong to those orders.
   */
  function PeriodTables(t: Tables, start: int, end: int): (p: Tables)
    ensures TicketsOfKnownOrders(p.orders, p.support)
    ensures forall o :: o in p.orders <==> o in t.orders && start <= o.orderTime < end
  {
    var orders := SliceByTimeWindow(t.orders, start, end);
    var ids := OrderIdSet(orders);
    var support := Restrict(t.support, (e: SupportEvent) => e.orderId, ids);
    assert TicketsOfKnownOrders(orders, support) by {
      forall id | id in SupportIdSet(support) ensures id in OrderIdSet(orders) {
        var k :| 0 <= k < |support| && support[k].orderId == id;
        assert support[k] in support;
      }
    }
    Tables(orders,
           Restrict(t.deliveries, (d: Delivery) => d.orderId, ids),
           Restrict(t.items, (i: Item) => i.orderId, ids),
           support,
           Restrict(t.ratings, (r: Rating) => r.orderId, ids))
  }

  /** The metrics of a period; its CX score lies in [0, 100]. */
  function PeriodMetrics(p: Tables): (m: Metrics)
    requires TicketsOfKnownOrders(p.orders, p.support)
    ensures 0.0 <= m.cxScore <= 100.0
  {
    CalculateCxScore(p.orders, p.deliveries, p.items, p.support, p.ratings)
  }

  /** What one metric contributes: nothing, an incident, or the error the slice ranking raises. */
  datatype Step = Skip | Fail | Create(incident: Incident)

  /**
   * Everything one detection run fixes: the two periods' metrics and cohort
   * metrics, and `describe`, which stands for the description f-string
   * `"{name} regressed from {baseline:.2f} to {current:.2f}"`.
   */
  datatype Run = Run(
    baselineMetrics: Metrics,
    currentMetrics: Metrics,
    baselineCohorts: seq<CohortMetrics>,
    currentCohorts: seq<CohortMetrics>,
    describe: (string, real, real) -> string)

  /** The cohorts of a period over the default dimensions with at least ten orders, and their metrics. */
  function PeriodCohorts(p: Tables): seq<CohortMetrics> {
    KeepLarge(AllMetrics(AllCohorts(p.orders, None), p), CohortMinOrders)
  }

  /** The run over two periods: their metrics and their cohort metrics. */
  function RunOf(bp: Tables, cp: Tables, describe: (string, real, real) -> string): Run
    requires TicketsOfKnownOrders(bp.orders, bp.support) && TicketsOfKnownOrders(cp.orders, cp.support)
  {
    Run(PeriodMetrics(bp), PeriodMetrics(cp), PeriodCohorts(bp), PeriodCohorts(cp), describe)
  }

  /** The run `detect_incidents` sets up for two time windows. */
  function RunFor(t: Tables, baselineStart: int, baselineEnd: int, currentStart: int, currentEnd: int,
                  describe: (string, real, real) -> string): Run
  {
    RunOf(PeriodTables(t, baselineStart, baselineEnd), PeriodTables(t, currentStart, currentEnd), describe)
  }

  /** Both period values of the metric exist and their change passes the gate. */
  predicate Passes(run: Run, name: string) {
    var b := PeriodValue(run.baselineMetrics, name);
    var c := PeriodValue(run.currentMetrics, name);
    b.Some? && c.Some? && PassesGate(name, b.value, c.value)
  }

  /** The top five slices of a metric over cohorts of at least ten orders; None where the ranking raises. */
  function SlicesOf(run: Run, name: string): Option<seq<Slice>> {
    TopSlices(run.baselineCohorts, run.currentCohorts, name, IncidentTopSlices, CohortMinOrders)
  }

  /** The incident a passing metric opens at time `at`, with its slices. */
  function Opened(run: Run, name: string, id: string, at: int, slices: seq<Slice>): Incident
    requires Passes(run, name)
  {
    var b := PeriodValue(run.baselineMetrics, name);
    var c := PeriodValue(run.currentMetrics, name).value;
    NewIncident(id, name, c, b, at, None, Some(slices), Some(run.describe(name, b.value, c)))
  }

  /** The outcome for one metric; `id` is the id the new incident would get and `at` the clock reading it would carry. */
  function StepFor(run: Run, name: string, id: string, at: int): Step {
    if !Passes(run, name) then Skip
    else
      match SlicesOf(run, name)
      case None => Fail
      case Some(slices) => Create(Opened(run, name, id, at, slices))
  }

  function Steps(run: Run, names: seq<string>, ids: seq<string>, times: seq<int>): (ss: seq<Step>)
    requires |ids| == |names| == |times|
    ensures |ss| == |names|
  {
    if |names| == 0 then []
    else
      var n := |names| - 1;
      Steps(run, names[..n], ids[..n], times[..n]) + [StepFor(run, names[n], ids[n], times[n])]
  }

  /** The k-th step is the outcome for the k-th metric. */
  lemma {:induction false} StepsAt(run: Run, names: seq<string>, ids: seq<string>, times: seq<int>, k: nat)
    requires |ids| == |names| == |times| && k < |names|
    ensures Steps(run, names, ids, times)[k] == StepFor(run, names[k], ids[k], times[k])
  {
    var n := |names| - 1;
    var prev := Steps(run, names[..n], ids[..n], times[..n]);
    assert Steps(run, names, ids, times) == prev + [StepFor(run, names[n], ids[n], times[n])];
    if k < n {
      StepsAt(run, names[..n], ids[..n], times[..n], k);
      assert names[..n][k] == names[k] && ids[..n][k] == ids[k] && times[..n][k] == times[k];
    }
  }

  /** The incidents created, in order, up to the first failing metric. */
  function Created(ss: seq<Step>): seq<Incident> {
    if |ss| == 0 || ss[0].Fail? then []
    else if ss[0].Create? then [ss[0].incident] + Created(ss[1..])
    else Created(ss[1..])
  }

  predicate Fails(ss: seq<Step>) {
    exists k :: 0 <= k < |ss| && ss[k].Fail?
  }

  /** Appending a step to steps that did not fail. */
  lemma {:induction false} CreatedAppend(ss: seq<Step>, s: Step)
    requires !Fails(ss)
    ensures Created(ss + [s]) == Created(ss) + (if s.Create? then [s.incident] else [])
    ensures Fails(ss + [s]) <==> s.Fail?
  {
    if |ss| > 0 {
      assert (ss + [s])[1..] == ss[1..] + [s];
      assert !Fails(ss[1..]) by {
        forall k | 0 <= k < |ss[1..]| ensures !ss[1..][k].Fail? {
          assert ss[1..][k] == ss[k + 1];
        }
      }
      CreatedAppend(ss[1..], s);
      assert Fails(ss + [s]) ==> s.Fail? by {
        if Fails(ss + [s]) {
          var k :| 0 <= k < |ss + [s]| && (ss + [s])[k].Fail?;
          if k < |ss| { assert ss[k].Fail?; }
        }
      }
    }
    assert s.Fail? ==> (ss + [s])[|ss|].Fail?;
  }

  /** Steps up to and including a failing one create what the steps before it created. */
  lemma {:induction false} CreatedStopsAtFailure(ss: seq<Step>, rest: seq<Step>)
    requires |ss| > 0 && ss[|ss| - 1].Fail?
    ensures Created(ss + rest) == Created(ss)
  {
    if ss[0].Fail? {
    } else {
      assert (ss + rest)[1..] == ss[1..] + rest;
      if |ss| > 1 {
        CreatedStopsAtFailure(ss[1..], rest);
      }
    }
  }

  /** Which steps create an incident. */
  function CreateFlags(ss: seq<Step>): (bs: seq<bool>)
    ensures |bs| == |ss| && forall k :: 0 <= k < |ss| ==> bs[k] == ss[k].Create?
  {
    seq(|ss|, k requires 0 <= k < |ss| => ss[k].Create?)
  }

  /**
   * The created incidents come from creating steps, at most one per step;
   * without a failure there is exactly one per creating step.
   */
  lemma {:induction false} CreatedFromSteps(ss: seq<Step>)
    ensures |Created(ss)| <= |ss|
    ensures forall inc :: inc in Created(ss) ==> exists k :: 0 <= k < |ss| && ss[k].Create? && ss[k].incident == inc
    ensures !Fails(ss) ==> |Created(ss)| == Count(CreateFlags(ss))
  {
    if |ss| > 0 && !ss[0].Fail? {
      CreatedFromSteps(ss[1..]);
      forall inc | inc in Created(ss)
        ensures exists k :: 0 <= k < |ss| && ss[k].Create? && ss[k].incident == inc
      {
        if !(ss[0].Create? && inc == ss[0].incident) {
          assert inc in Created(ss[1..]);
          var k :| 0 <= k < |ss[1..]| && ss[1..][k].Create? && ss[1..][k].incident == inc;
          assert ss[k + 1] == ss[1..][k];
        }
      }
      if !Fails(ss) {
        assert !Fails(ss[1..]) by {
          forall k | 0 <= k < |ss[1..]| ensures !ss[1..][k].Fail? {
            assert ss[1..][k] == ss[k + 1];
          }
        }
        CountFront(CreateFlags(ss));
        assert CreateFlags(ss)[1..] == CreateFlags(ss[1..]);
      }
    } else if |ss| > 0 {
      assert Fails(ss);
    }
  }

  /**
   * A metric is skipped exactly when a period value is missing or the gate
   * holds it back; a metric that passes fails exactly when its slice
   * ranking raises, and otherwise opens a new incident at `at` with both
   * period values, its slices and its description.
   */
  lemma StepForFacts(run: Run, name: string, id: string, at: int)
    ensures StepFor(run, name, id, at).Skip? <==> !Passes(run, name)
    ensures StepFor(run, name, id, at).Fail? <==> Passes(run, name) && SlicesOf(run, name).None?
    ensures StepFor(run, name, id, at).Create? <==> Passes(run, name) && SlicesOf(run, name).Some?
    ensures StepFor(run, name, id, at).Create? ==>
              var inc := StepFor(run, name, id, at).incident;
              && inc.status == "new" && inc.metricName == name && inc.incidentId == id && inc.detectedAt == at
              && inc.baselineValue == PeriodValue(run.baselineMetrics, name) && inc.baselineValue.Some?
              && Some(inc.metricValue) == PeriodValue(run.currentMetrics, name)
              && PassesGate(name, inc.baselineValue.value, inc.metricValue)
              && inc.delta == inc.metricValue - inc.baselineValue.value
              && inc.topRegressingSlices == SlicesOf(run, name).value
              && inc.description == Some(run.describe(name, inc.baselineValue.value, inc.metricValue))
  {
  }

  /** No metric that passes the gate has a slice ranking that raises. */
  ghost predicate RankingsSucceed(run: Run, names: seq<string>) {
    forall k :: 0 <= k < |names| && Passes(run, names[k]) ==> SlicesOf(run, names[k]).Some?
  }

  /** Reference: in order, the incident of every metric that passes the gate, opened at its clock reading. */
  ghost function Passing(run: Run, names: seq<string>, ids: seq<string>, times: seq<int>): seq<Incident>
    requires |ids| == |names| == |times| && RankingsSucceed(run, names)
  {
    if |names| == 0 then []
    else
      var n := |names| - 1;
      assert forall k :: 0 <= k < n ==> names[..n][k] == names[k];
      Passing(run, names[..n], ids[..n], times[..n])
      + if Passes(run, names[n]) then [Opened(run, names[n], ids[n], times[n], SlicesOf(run, names[n]).value)] else []
  }

  /** Without a ranking that raises, nothing fails and the created incidents are exactly the reference ones. */
  lemma {:induction false} CreatedIsPassing(run: Run, names: seq<string>, ids: seq<string>, times: seq<int>)
    requires |ids| == |names| == |times| && RankingsSucceed(run, names)
    ensures !Fails(Steps(run, names, ids, times))
    ensures Created(Steps(run, names, ids, times)) == Passing(run, names, ids, times)
  {
    if |names| > 0 {
      var n := |names| - 1;
      assert forall k :: 0 <= k < n ==> names[..n][k] == names[k];
      CreatedIsPassing(run, names[..n], ids[..n], times[..n]);
      var s := StepFor(run, names[n], ids[n], times[n]);
      StepForFacts(run, names[n], ids[n], times[n]);
      CreatedAppend(Steps(run, names[..n], ids[..n], times[..n]), s);
    }
  }

  /** The steps fail exactly when some metric that passes the gate has a slice ranking that raises. */
  lemma FailsMeaning(run: Run, names: seq<string>, ids: seq<string>, times: seq<int>)
    requires |ids| == |names| == |times|
    ensures Fails(Steps(run, names, ids, times)) <==> !RankingsSucceed(run, names)
  {
    var ss := Steps(run, names, ids, times);
    if Fails(ss) {
      var k :| 0 <= k < |ss| && ss[k].Fail?;
      StepsAt(run, names, ids, times, k);
      StepForFacts(run, names[k], ids[k], times[k]);
    }
    if !RankingsSucceed(run, names) {
      var k :| 0 <= k < |names| && Passes(run, names[k]) && SlicesOf(run, names[k]).None?;
      StepsAt(run, names, ids, times, k);
      StepForFacts(run, names[k], ids[k], times[k]);
    }
  }

  /**
   * The run fails exactly when a passing metric's slice ranking raises;
   * otherwise it creates, in order, the incident of every metric that passes
   * the gate. Every created incident is new, and is the one of some checked
   * metric: its id, its clock reading, both period values, a change that
   * passes the gate.
   */
  lemma CreatedFacts(run: Run, names: seq<string>, ids: seq<string>, times: seq<int>)
    requires |ids| == |names| == |times|
    ensures Fails(Steps(run, names, ids, times)) <==> !RankingsSucceed(run, names)
    ensures RankingsSucceed(run, names) ==> Created(Steps(run, names, ids, times)) == Passing(run, names, ids, times)
    ensures |Created(Steps(run, names, ids, times))| <= |names|
    ensures forall inc :: inc in Created(Steps(run, names, ids, times)) ==>
              && inc.status == "new" && inc.baselineValue.Some?
              && PassesGate(inc.metricName, inc.baselineValue.value, inc.metricValue)
              && inc.delta == inc.metricValue - inc.baselineValue.value
              && exists k :: 0 <= k < |names| && inc.metricName == names[k] && inc.incidentId == ids[k]
                             && inc.detectedAt == times[k]
    ensures !Fails(Steps(run, names, ids, times)) ==>
              |Created(Steps(run, names, ids, times))| == Count(CreateFlags(Steps(run, names, ids, times)))
  {
    var ss := Steps(run, names, ids, times);
    FailsMeaning(run, names, ids, times);
    if RankingsSucceed(run, names) {
      CreatedIsPassing(run, names, ids, times);
    }
    CreatedFromSteps(ss);
    forall inc | inc in Created(ss)
      ensures && inc.status == "new" && inc.baselineValue.Some?
              && PassesGate(inc.metricName, inc.baselineValue.value, inc.metricValue)
              && inc.delta == inc.metricValue - inc.baselineValue.value
              && exists k :: 0 <= k < |names| && inc.metricName == names[k] && inc.incidentId == ids[k]
                             && inc.detectedAt == times[k]
    {
      var k :| 0 <= k < |ss| && ss[k].Create? && ss[k].incident == inc;
      StepsAt(run, names, ids, times, k);
      StepForFacts(run, names[k], ids[k], times[k]);
    }
  }

  /** Counting from the front. */
  lemma {:induction false} CountFront(bs: seq<bool>)
    requires |bs| > 0
    ensures Count(bs) == (if bs[0] then 1 else 0) + Count(bs[1..])
  {
    if |bs| > 1 {
      CountFront(bs[..|bs| - 1]);
      assert bs[..|bs| - 1][1..] == bs[1..][..|bs[1..]| - 1];
    }
  }

  class DetectionPipeline {
    const incidentManager: IncidentManager

    constructor()
      ensures fresh(incidentManager) && incidentManager.incidents == []
    {
      incidentManager := new IncidentManager();
    }

    /**
     * `detect_incidents`. `ids[k]` is the id an incident for the k-th
     * metric receives, `times[k]` the clock reading `datetime.now()` gives
     * it, and `describe` writes the description from the metric name and
     * the two values. The result fails, after creating the incidents of the
     * metrics before, when the slice ranking raises on a value that is not
     * a number.
     */
    method DetectIncidents(t: Tables, baselineStart: int, baselineEnd: int, currentStart: int, currentEnd: int,
                           metricsToCheck: Option<seq<string>>, ids: seq<string>, times: seq<int>,
                           describe: (string, real, real) -> string)
      returns (r: Result<seq<Incident>, string>)
      requires |ids| == |metricsToCheck.GetOr(DefaultMetrics)| == |times|
      modifies incidentManager
      ensures incidentManager.incidents ==
                old(incidentManager.incidents)
                + Created(Steps(RunFor(t, baselineStart, baselineEnd, currentStart, currentEnd, describe),
                                metricsToCheck.GetOr(DefaultMetrics), ids, times))
      ensures r.Err? <==> Fails(Steps(RunFor(t, baselineStart, baselineEnd, currentStart, currentEnd, describe),
                                      metricsToCheck.GetOr(DefaultMetrics), ids, times))
      ensures r.Ok? ==> r.value == Created(Steps(RunFor(t, baselineStart, baselineEnd, currentStart, currentEnd, describe),
                                                 metricsToCheck.GetOr(DefaultMetrics), ids, times))
    {
      var names := metricsToCheck.GetOr(DefaultMetrics);
      var bp := PeriodTables(t, baselineStart, baselineEnd);
      var cp := PeriodTables(t, currentStart, currentEnd);
      var baselineMetrics := PeriodMetrics(bp);
      var currentMetrics := PeriodMetrics(cp);
      var baselineCohorts := CalculateAllCohortMetrics(bp, None, CohortMinOrders);
      var currentCohorts := CalculateAllCohortMetrics(cp, None, CohortMinOrders);
      r := DetectOver(Run(baselineMetrics, currentMetrics, baselineCohorts, currentCohorts, describe), names, ids, times);
    }

    /** The loop of `detect_incidents` over the metrics, once the two periods are cut out. */
    method DetectOver(run: Run, names: seq<string>, ids: seq<string>, times: seq<int>)
      returns (r: Result<seq<Incident>, string>)
      requires |ids| == |names| == |times|
      modifies incidentManager
      ensures incidentManager.incidents == old(incidentManager.incidents) + Created(Steps(run, names, ids, times))
      ensures r.Err? <==> Fails(Steps(run, names, ids, times))
      ensures r.Ok? ==> r.value == Created(Steps(run, names, ids, times))
    {
      var incidents, failure := DetectAll(run, names, ids, times);
      if failure.Some? {
        return Err("TypeError: a cohort has no number for " + failure.value);
      }
      r := Ok(incidents);
    }

    /** The loop itself: the incidents created in order, and the metric it stopped at, if any. */
    method DetectAll(run: Run, names: seq<string>, ids: seq<string>, times: seq<int>)
      returns (incidents: seq<Incident>, failure: Option<string>)
      requires |ids| == |names| == |times|
      modifies incidentManager
      ensures incidentManager.incidents == old(incidentManager.incidents) + incidents
      ensures incidents == Created(Steps(run, names, ids, times))
      ensures failure.Some? <==> Fails(Steps(run, names, ids, times))
    {
      ghost var ss := Steps(run, names, ids, times);
      incidents := [];
      var i := 0;
      while i < |names|
        invariant 0 <= i <= |names|
        invariant !Fails(ss[..i])
        invariant incidents == Created(ss[..i])
        invariant incidentManager.incidents == old(incidentManager.incidents) + incidents
      {
        PrefixSnoc(ss, i);
        CreatedAppend(ss[..i], ss[i]);
        var step := DetectOne(run, names[i], ids[i], times[i]);
        StepsAt(run, names, ids, times, i);
        if step.Fail? {
          CreatedStopsAtFailure(ss[..i + 1], ss[i + 1..]);
          SplitAt(ss, i + 1);
          return incidents, Some(names[i]);
        }
        if step.Create? {
          incidents := incidents + [step.incident];
        }
        i := i + 1;
      }
      assert ss[..i] == ss;
      failure := None;
    }

    /** One metric of the loop: skipped, failing on a cohort without a number, or creating its incident. */
    method DetectOne(run: Run, name: string, id: string, at: int) returns (step: Step)
      modifies incidentManager
      ensures step == StepFor(run, name, id, at)
      ensures incidentManager.incidents
                == old(incidentManager.incidents) + (if step.Create? then [step.incident] else [])
    {
      var b := PeriodValue(run.baselineMetrics, name);
      var c := PeriodValue(run.currentMetrics, name);
      if b.Some? && c.Some? && PassesGate(name, b.value, c.value) {
        var slices := FindTopRegressingSlices(run.baselineCohorts, run.currentCohorts, name,
                                              IncidentTopSlices, CohortMinOrders);
        if slices.None? {
          return Fail;
        }
        var incident := incidentManager.CreateIncident(id, name, c.value, b, at, None, Some(slices.value),
                                                       Some(run.describe(name, b.value, c.value)));
        return Create(incident);
      }
      return Skip;
    }

    /** `get_active_incidents`: the manager's incidents, most severe and most recent first. */
    method GetActiveIncidents() returns (r: seq<Incident>)
      modifies incidentManager
      ensures r == SortDesc(old(incidentManager.incidents), IncidentKey) && incidentManager.incidents == r
      ensures multiset(r) == multiset(old(incidentManager.incidents))
    {
      r := incidentManager.GetActiveIncidents();
    }

    /** `get_incident_details`: the fields of the first incident with the id, or None for an unknown id. */
    method GetIncidentDetails(id: string) returns (r: Option<Details>)
      ensures r.None? <==> FirstWithId(incidentManager.incidents, id).None?
      ensures r.Some? ==> r.value == DetailsOf(incidentManager.incidents[FirstWithId(incidentManager.incidents, id).value])
      ensures r.Some? ==> r.value.incidentId == id
    {
      var k := incidentManager.Locate(id);
      r := if k.Some? then Some(DetailsOf(incidentManager.incidents[k.value])) else None;
    }
  }

  /** What `get_incident_details` reports of an incident: every field but the affected cohorts. */
  datatype Details = Details(
    incidentId: string,
    detectedAt: int,
    metricName: string,
    metricValue: real,
    baselineValue: Option<real>,
    delta: real,
    deltaPercent: real,
    severity: Severity,
    status: string,
    description: Option<string>,
    topRegressingSlices: seq<Slice>)

  /** The details of one incident. */
  function DetailsOf(inc: Incident): Details {
    Details(inc.incidentId, inc.detectedAt, inc.metricName, inc.metricValue, inc.baselineValue, inc.delta,
            inc.deltaPercent, inc.severity, inc.status, inc.description, inc.topRegressingSlices)
  }
}
