# CX fulfillment monitoring — a Dafny model

This project models the core of a customer-experience (CX) monitoring system for a grocery
delivery service. The system watches CX metrics of orders, such as on-time rate, ETA error,
item accuracy, cancellations, refunds, support contacts, ratings and a weighted CX score.
It flags regressions with three anomaly detectors and their 2-of-3 consensus. It then slices
the regression by cohort (store, category, region, time of day, basket size) and records
incidents. For each incident it tests a catalog of causal hypotheses and ranks them into a
root-cause report. Finally it maps causes to remediation actions and prices their trade-offs
with a what-if simulator. The synthetic order, delivery, item, inventory, support and rating
generators that feed the metrics are part of the model as well.

Each Python file of the core is one Dafny module:

| module | file | form |
|---|---|---|
| `AnomalyDetection` | `detection/anomaly_detector.py` | functions; detector loops as methods |
| `Slicing` | `detection/slicing_engine.py` | functions; one method with a loop |
| `Incidents` | `detection/incident_manager.py` | class `IncidentManager` over a `seq` of incidents |
| `Pipeline` | `detection/detection_pipeline.py` | class `DetectionPipeline` holding an `IncidentManager` |
| `Cohorts` | `metrics/cohort_slicer.py` | functions; loops as methods |
| `CxMetrics` | `metrics/cx_metrics.py` | functions over order rows |
| `Hypotheses` | `rca/hypothesis_library.py` | a constant catalog and lookups |
| `CausalChecks` | `rca/causal_checks.py` | functions |
| `RcaReport` | `rca/report_generator.py` | functions; the test loop as a method |
| `Actions` | `recommendations/action_engine.py` | functions; the generation loop as a method |
| `Tradeoffs` | `recommendations/tradeoff_calculator.py` | functions; loops as methods |
| `WhatIf` | `recommendations/whatif_simulator.py` | functions over order rows |
| `OrderGen` | `data/generators/order_generator.py` | functions; generation loops as methods |
| `DeliveryGen` | `data/generators/delivery_generator.py` | class `DeliveryGenerator` with its batch queues |
| `ItemGen` | `data/generators/item_generator.py` | functions; the item loops as methods |
| `SyntheticGen` | `data/generators/synthetic_data_generator.py` | functions; generation loops as methods |

Shared helper modules: `Wrappers` (Option and Result), `Stats` (sums, means, variances and a
square-root-free ratio test), `Strings` (code-point order, lower case, padded decimal ids),
`Lists` (a stable insertion sort by a lexicographic key, filters and tallies) and `Schema`
(the records and constants of `data/schemas/schema_definitions.py`).

Conventions:
- Numbers are `real`, counts are `nat`, and timestamps are whole seconds as `int`.
- A test `|d| / std > t` is stated without a square root as `RatioExceeds(d, variance, t)`.
  The lemma `Stats.RatioExceedsMeaning` ties it to any `s` with `s * s == variance`, and
  `std == 0` becomes `variance == 0`.
- pandas' `std()` has `ddof = 1` and gives NaN below two values, which the model writes as `None`.
  numpy's `std` has `ddof = 0`.
- Python's `sort` and `sorted` are stable, including with `reverse=True`. Every sort is one stable
  insertion sort, descending by a lexicographic key of reals. Ascending order uses a negated key.
  pandas' `sort_values` is not stable by default; see "Left out".
- Random draws, uuids, the wall clock, percentiles, `norm.cdf`, `pearsonr` and SHAP values
  are parameters of the operations that use them.

## Model

| member | source | states |
|---|---|---|
| AnomalyDetection.DetectZScore | detection/anomaly_detector.py:35-75 | one flag per value; every flag is the window test at that index, and all flags are false for a series shorter than the window |
| AnomalyDetection.ZWindowIncludesCurrent | detection/anomaly_detector.py:53-59 | the window at index i holds min(i + 1, w) values, is the slice of the series ending at i, and its last value is the current point |
| AnomalyDetection.ZFlagMeaning | detection/anomaly_detector.py:61-73 | given the window's standard deviation s, a flag is raised iff the window has two or more values, s is non-zero and abs(v - mean) / s exceeds the threshold; a constant window never flags |
| AnomalyDetection.EwmaRecurrence | detection/anomaly_detector.py:87-102 | the average starts at the first value and each later point is alpha * value + (1 - alpha) * previous average |
| AnomalyDetection.EwmaBounded | detection/anomaly_detector.py:99-102 | with 0 <= alpha <= 1 the moving average stays inside any bounds that hold for all the values |
| AnomalyDetection.DetectEwma | detection/anomaly_detector.py:77-121 | returns the moving average of every prefix and the residual flag at every index |
| AnomalyDetection.EwmaFlagFacts | detection/anomaly_detector.py:105-119 | no flag in the first ten points; afterwards a flag iff the last ten residuals vary and the current residual over their standard deviation exceeds the threshold |
| AnomalyDetection.ChangePointsFacts | detection/anomaly_detector.py:137-168 | no change point in a series shorter than two segments; otherwise exactly the split indices m <= i < n - m that pass the pooled-deviation test, in strictly increasing order |
| AnomalyDetection.DetectChangePoints | detection/anomaly_detector.py:123-170 | the loop returns the change-point list specified by ChangePoints |
| AnomalyDetection.Consensus | detection/anomaly_detector.py:222-226 | as long as the shortest flag list; a point is anomalous iff at least two of the three detectors flag it |
| AnomalyDetection.DetectAnomalies | detection/anomaly_detector.py:172-233 | an unknown method name is an error with the source's message; each known method yields one flag per value, and "ewma" also returns the averages |
| AnomalyDetection.AnomalySeverityMonotone | detection/anomaly_detector.py:271-280 | a lower percentile never gets a milder severity; HIGH exactly below the 5th percentile and LOW exactly from the 10th |
| Slicing.CohortsMatchMeaning | detection/slicing_engine.py:100-102 | two cohorts with distinct keys match iff they hold the same (dimension, value) pairs in any order; matching is symmetric |
| Slicing.FindCohortMetricsFacts | detection/slicing_engine.py:92-98 | the lookup fails iff no entry matches; otherwise it returns the first matching entry |
| Slicing.FindCohortMetricsFirst | detection/slicing_engine.py:92-98 | yields the index of the returned entry, which matches, and no earlier entry matches |
| Slicing.EffectSize | detection/slicing_engine.py:125-128 | the relative change is never negative |
| Slicing.CalculateSignificance | detection/slicing_engine.py:104-137 | the p-value lies between 0.001 and 1, and is exactly 1 when either side has fewer than ten orders; the computation raises (None) iff both sides have ten orders and one value is not a number |
| Slicing.SignificanceMonotoneInEffect | detection/slicing_engine.py:123-137 | for the same sample size, a larger effect never yields a larger p-value |
| Slicing.SignificanceLevelFacts | detection/slicing_engine.py:139-162 | a smaller p-value never gets a lower numeric level; a p-value of at least 0.001 is never "***"; every known p-value ranks at least 1 |
| Slicing.SignificanceToNumeric | detection/slicing_engine.py:153-162 | the numeric level lies between 0 and 4 |
| Slicing.Annotate | detection/slicing_engine.py:51-73 | raises (None) iff both periods have a matching entry and the p-value computation on them raises; otherwise keeps the regression, attaches a p-value within [0.001, 1] iff both periods have a matching entry, and labels it with its significance level |
| Slicing.AnnotateAll | detection/slicing_engine.py:51-73 | raises iff some regression's annotation raises; otherwise one slice per regression, in order, each its annotation |
| Slicing.AnnotateEach | detection/slicing_engine.py:51-73 | the annotating loop returns the result specified by AnnotateAll, stopping at the first annotation that raises |
| Slicing.KeepEnoughOrders | detection/slicing_engine.py:76-79 | keeps exactly the slices with at least the minimum number of orders |
| Slicing.KeptSlicesFacts | detection/slicing_engine.py:51-79 | every kept slice is one of the candidate regressions (negative delta) with enough orders, and is never labelled "***" |
| Slicing.TopSlicesFacts | detection/slicing_engine.py:25-90 | raises iff finding the regressing cohorts raises or annotating one of them does; otherwise min(top_n, number kept) slices of those with enough orders, sorted by (significance, abs(delta)) descending, all of them when they fit, none left out ranked above one returned, each a regression among the 2·top_n candidates, never "***" |
| Slicing.FindTopRegressingSlices | detection/slicing_engine.py:25-90 | returns the slice list, or the failure, specified by TopSlices |
| Slicing.CompareSlices | detection/slicing_engine.py:164-185 | raises (None) iff either slice's value is not a number; otherwise it carries both values and cohorts, value1 + delta == value2, and the percent change is 0 on a zero base and has the sign of the delta on a positive one |
| Slicing.CompareSlicesAntisymmetric | detection/slicing_engine.py:172-176 | swapping the two slices raises exactly when the original order does, and otherwise negates the delta |
| Slicing.FormatCohortLabelFacts | detection/slicing_engine.py:267-273 | the label does not depend on the order of the cohort's entries, and is "All" exactly for the empty cohort |
| Incidents.Change | detection/incident_manager.py:59-65 | without a baseline the change is (0, 0); otherwise baseline + delta == value, and the percentage is delta / baseline * 100, or 0 on a zero baseline |
| Incidents.IncidentSeverityMonotone | detection/incident_manager.py:91-110 | a larger change never gives a milder severity; cx_score is graded on the absolute delta only, every other metric on the percentage only |
| Incidents.NewIncident | detection/incident_manager.py:59-86 | a new incident has status "new", the given id and metric, the change computed by Change, and the severity of that change |
| Incidents.ListIncidentsFacts | detection/incident_manager.py:112-144 | every listed incident is stored and passes the truthy status and severity filters; the list is sorted by (severity, detected_at) descending and holds at most `limit` entries; without a limit every matching incident is listed, and with no filter the list is a permutation of the store |
| Incidents.ListIncidentsSound | detection/incident_manager.py:112-144 | every listed incident is stored and passes the filters; sorted, and bounded by the limit |
| Incidents.ListIncidentsComplete | detection/incident_manager.py:112-144 | without a limit every incident that passes the filters is listed |
| Incidents.FirstWithId | detection/incident_manager.py:146-151 | finds no index iff no incident has the id; otherwise the first index with that id |
| Incidents.SetStatusFacts | detection/incident_manager.py:153-157 | the length is kept and incidents with other ids are untouched; an unknown id changes nothing; the first incident with the id gets the new status, only its status changes, and later incidents with the same id keep theirs |
| Incidents.ActiveComplement | detection/incident_manager.py:218 | the active incidents and the resolved ones together make up all incidents |
| Incidents.SummaryFacts | detection/incident_manager.py:204-219 | the status and severity tallies each add up to the number of incidents and count each value's occurrences; active + resolved == total |
| Incidents.IncidentManager.CreateIncident | detection/incident_manager.py:38-89 | appends the new incident, computed by NewIncident, to the store and returns it |
| Incidents.IncidentManager.GetIncidents | detection/incident_manager.py:112-144 | returns the filtered, sorted and limited list; without a filter the store itself is left sorted in place, as the source sorts its own list |
| Incidents.IncidentManager.Locate | detection/incident_manager.py:148-151 | the loop finds the first index with the id, or none |
| Incidents.IncidentManager.GetIncident | detection/incident_manager.py:146-151 | none iff no stored incident has the id; otherwise the first stored incident with that id |
| Incidents.IncidentManager.UpdateIncidentStatus | detection/incident_manager.py:153-157 | the store becomes SetStatus of the old store: only the first incident with the id changes, and only its status |
| Incidents.IncidentManager.GetActiveIncidents | detection/incident_manager.py:200-202 | returns the store sorted by (severity, detected_at) descending, and keeps it sorted that way; a permutation of the old store |
| Incidents.IncidentManager.GetIncidentsSummary | detection/incident_manager.py:204-219 | the total, the tallies by status and by severity, and the count of incidents not resolved |
| Cohorts.GetUniqueValues | metrics/cohort_slicer.py:30-34 | the distinct values of a column, in strictly increasing order, are exactly the values some order has in that column; an unknown column gives none |
| Cohorts.SortedUniqueFacts | metrics/cohort_slicer.py:34 | sorted(unique(...)) is strictly increasing and holds exactly the input's values |
| Cohorts.InsertCellSorted | metrics/cohort_slicer.py:34 | inserting a value into a strictly increasing list keeps it strictly increasing and adds exactly that value |
| Cohorts.ProductFacts | metrics/cohort_slicer.py:67-69 | itertools.product: its size is the product of the value-list sizes, and it holds exactly the tuples that pick one value from each list |
| Cohorts.PrefixedFacts | metrics/cohort_slicer.py:67-69 | the prefixing step has |xs| * |ps| tuples, each one head from xs followed by a tail from ps |
| Cohorts.Available | metrics/cohort_slicer.py:52 | keeps exactly the requested dimensions that are columns of the orders table |
| Cohorts.CohortKeys | metrics/cohort_slicer.py:48-52 | the dimensions used are distinct columns of the orders table |
| Cohorts.AllCohortsFacts | metrics/cohort_slicer.py:36-71 | no usable dimension gives the single empty cohort; otherwise one cohort per element of the product, each cohort binds the dimensions in order to values seen in the data, and every such combination is present |
| Cohorts.GetAllCohorts | metrics/cohort_slicer.py:36-71 | the method returns the cohort list specified by AllCohorts |
| Cohorts.ZipAll | metrics/cohort_slicer.py:67-69 | one cohort per value combination, pairing the dimension names with the combination's values |
| Cohorts.CalculateCohortMetrics | metrics/cohort_slicer.py:83-114 | keeps the cohort, counts the orders matching it, and has a CX score within [0, 100] |
| Cohorts.LargeCohortsFacts | metrics/cohort_slicer.py:141-146 | every kept cohort has at least the minimum number of orders, and a cohort is kept iff it is enumerated and has enough orders |
| Cohorts.KeptCohortIsLarge | metrics/cohort_slicer.py:141-146 | a kept cohort was enumerated and has enough matching orders |
| Cohorts.LargeCohortIsKept | metrics/cohort_slicer.py:141-146 | an enumerated cohort with enough matching orders is kept |
| Cohorts.KeepLarge | metrics/cohort_slicer.py:141-146 | keeps exactly the entries with at least the minimum order count |
| Cohorts.CalculateAllCohortMetrics | metrics/cohort_slicer.py:116-159 | the loop returns the metrics of every enumerated cohort that has enough orders, in enumeration order |
| Cohorts.SortByKeyFacts | metrics/cohort_slicer.py:214-218 | sorting a cohort's items orders them strictly by dimension name and is a permutation |
| Cohorts.KeySortedUnique | metrics/cohort_slicer.py:214-218 | two key-sorted permutations of each other are equal, so the sorted tuple is a canonical key |
| Cohorts.CohortKeyOrderFree | metrics/cohort_slicer.py:214-218 | two cohorts have the same key iff they hold the same items in any order |
| Cohorts.BaselineLookupLastWins | metrics/cohort_slicer.py:178-181 | a key is in the baseline dictionary iff some baseline entry has it, and it maps to the last such entry |
| Cohorts.BaselineLookupLast | metrics/cohort_slicer.py:178-181 | yields the index of the entry a key maps to: it has the key, and no later entry does |
| Cohorts.Compare | metrics/cohort_slicer.py:193-207 | a regression is reported iff the current value is below the baseline value; it carries both values, the cohort and order count of the current entry, and a negative delta equal to current - baseline |
| Cohorts.Regressions | metrics/cohort_slicer.py:183-207 | a successful result has at most one regression per current entry |
| Cohorts.RegressionsSnoc | metrics/cohort_slicer.py:185-207 | one more current entry keeps a failure, is skipped without a baseline, fails when a value is not a number, and otherwise adds its regression if the metric fell |
| Cohorts.RegressionsFail | metrics/cohort_slicer.py:185-196 | the loop raises iff some current entry whose key has a baseline has a value, or a baseline value, that is not a number |
| Cohorts.RegressionsSound | metrics/cohort_slicer.py:185-207 | every reported regression has a negative delta and is the regression of a current entry whose key has a baseline and whose metric fell |
| Cohorts.RegressionsComplete | metrics/cohort_slicer.py:185-207 | every current entry whose key has a baseline and whose metric fell has its regression reported |
| Cohorts.TopRegressingFacts | metrics/cohort_slicer.py:177-212 | raises iff a current entry with a baseline has a value that is not a number; otherwise min(top_n, number found) regressions, most negative delta first, all of them when they fit, each present in both periods with a negative delta, and no falling cohort left out fell further than one returned |
| Cohorts.FindTopRegressingCohorts | metrics/cohort_slicer.py:161-212 | the two loops return the list, or the failure, specified by TopRegressing |
| Cohorts.SliceByTimeWindow | metrics/cohort_slicer.py:240-247 | keeps exactly the orders with start <= order_time < end |
| CxMetrics.WeightsSumToOne | metrics/cx_metrics.py:17-24 | the six CX weights add up to one |
| CxMetrics.OnTimeRate | metrics/cx_metrics.py:33-68 | the rate lies in [0, 1]; it is 0 without eligible deliveries and 1 iff there are eligible deliveries and all are on time |
| CxMetrics.EligibleRows | metrics/cx_metrics.py:33-68 | keeps exactly the joined rows that are not canceled and have an actual ETA |
| CxMetrics.Joined | metrics/cx_metrics.py:33-68 | every joined row pairs an order with a delivery of the same order id |
| CxMetrics.CalculateEtaError | metrics/cx_metrics.py:70-106 | the mean absolute error is non-negative and bounds the absolute mean error |
| CxMetrics.ItemAccuracy | metrics/cx_metrics.py:108-125 | accuracy lies in [0, 1] and is 1 for no items |
| CxMetrics.ItemAccuracyIsCleanShare | metrics/cx_metrics.py:118-125 | when no item is both substituted and missing, 1 - substitution rate - missing rate is the share of clean items |
| CxMetrics.CountPartition | metrics/cx_metrics.py:118-125 | substituted, missing and clean items partition the item list |
| CxMetrics.CancellationRate | metrics/cx_metrics.py:127-140 | the rate lies in [0, 1] and is 0 iff no delivery is canceled |
| CxMetrics.ItemOrderIds | metrics/cx_metrics.py:142-159 | the order ids of the items, each once |
| CxMetrics.OrderRefundPositive | metrics/cx_metrics.py:155-157 | an order's refund total is non-negative, and positive iff one of its items has a positive refund |
| CxMetrics.RefundRate | metrics/cx_metrics.py:142-159 | the rate lies in [0, 1] and is 0 for no items |
| CxMetrics.RefundRateAllRefunded | metrics/cx_metrics.py:152-159 | when every item is refunded, the refund rate is 1 |
| CxMetrics.SupportRate | metrics/cx_metrics.py:161-182 | the rate is non-negative, 0 for no orders, and at most 1 when every ticket belongs to a known order |
| CxMetrics.RatingProxy | metrics/cx_metrics.py:184-200 | the proxy lies in [0, 1] and is 0.5 without ratings |
| CxMetrics.RatingProxyUnclamped | metrics/cx_metrics.py:194-200 | for stars in 1..5 the clamp never binds: the proxy is (mean stars - 1) / 4 |
| CxMetrics.CxScore | metrics/cx_metrics.py:229-245 | for rates in [0, 1] the score lies in [0, 100], and it is 100 exactly for a perfect record |
| CxMetrics.CxScoreMonotone | metrics/cx_metrics.py:229-245 | better rates (higher on-time, accuracy and rating; lower cancellation, refund and support) never lower the score |
| CxMetrics.CalculateCxScore | metrics/cx_metrics.py:202-265 | the score is the weighted score of the computed rates, lies in [0, 100] when tickets belong to known orders, carries the 0-100 component scores, and has mean stars iff there are ratings |
| CxMetrics.KeepMatching | metrics/cx_metrics.py:288-291 | keeps exactly the orders that match every cohort item on a known column |
| CxMetrics.FilterByCohortMatches | metrics/cx_metrics.py:288-291 | filtering column by column equals keeping the orders that match the whole cohort; unknown columns are skipped |
| CxMetrics.Restrict | metrics/cx_metrics.py:294-299 | keeps exactly the rows whose order id is in the cohort's order set |
| CxMetrics.MetricsForCohort | metrics/cx_metrics.py:267-308 | the cohort's CX score lies in [0, 100] |
| CxMetrics.MetricsForEmptyCohort | metrics/cx_metrics.py:287-308 | the empty cohort, on tables whose rows all belong to known orders, gives the metrics of the whole data |
| Hypotheses.AllHypotheses | rca/hypothesis_library.py:96-98 | the catalog's hypotheses, in the catalog's order |
| Hypotheses.Get | rca/hypothesis_library.py:92-94 | a lookup fails iff no entry has the key; otherwise it returns a hypothesis stored under that key |
| Hypotheses.CatalogShape | rca/hypothesis_library.py:36-88 | five entries, one per category supply, merchant, policy, inventory, model, in that order |
| Hypotheses.CatalogFacts | rca/hypothesis_library.py:36-88 | the catalog keys, the hypothesis ids and the categories are each distinct, and the hypotheses are distinct |
| Hypotheses.GetHypothesisFacts | rca/hypothesis_library.py:92-94 | every catalog key finds its own hypothesis; a hypothesis id such as "supply_1" is not a key and finds nothing |
| Hypotheses.OfCategoryOne | rca/hypothesis_library.py:100-102 | in a list with one hypothesis per category, filtering by a hypothesis' category gives that hypothesis alone |
| Hypotheses.ByCategoryFacts | rca/hypothesis_library.py:100-102 | a category's hypotheses are exactly the catalog entries of that category: one per known category, none for an unknown one |
| Hypotheses.OfCategoriesMembers | rca/hypothesis_library.py:129-130 | the hypotheses collected for a list of categories are exactly those whose category is listed |
| Hypotheses.OfCategoriesDistinct | rca/hypothesis_library.py:129-130 | collecting over distinct categories from distinct hypotheses never repeats a hypothesis |
| Hypotheses.RelevantForCxScore | rca/hypothesis_library.py:104-132 | a cx_score regression brings every hypothesis of the catalog, in catalog order |
| Hypotheses.RelevantForRefundRate | rca/hypothesis_library.py:104-132 | a refund_rate regression brings the inventory hypothesis, then the merchant one |
| Hypotheses.RelevantHypothesesFacts | rca/hypothesis_library.py:104-132 | an unmapped metric brings none; the result never repeats a hypothesis and holds exactly the catalog hypotheses of the metric's categories |
| CausalChecks.PooledVariance | rca/causal_checks.py:61-74 | the pooled variance is undefined (NaN in the source) iff some group has fewer than two values |
| CausalChecks.DiffInDiff | rca/causal_checks.py:24-95 | the four group means, both differences, the estimate (treatment after - baseline after) - (treatment before - baseline before), and significance iff p < 0.05 |
| CausalChecks.DiffInDiffStatistic | rca/causal_checks.py:69-94 | with an undefined or zero pooled deviation t = 0, p = 1 and not significant; otherwise t * pooled std == estimate and p = 2 * (1 - cdf(abs(t))) |
| CausalChecks.DiffInDiffDegenerate | rca/causal_checks.py:61-82 | the degenerate branch is taken iff some group has fewer than two values or all four groups are constant |
| CausalChecks.GroupNonEmpty | rca/causal_checks.py:128-152 | a group is non-empty iff some row in its window has the policy value and a metric value |
| CausalChecks.CheckPolicyChangeFacts | rca/causal_checks.py:97-158 | the check succeeds iff both baseline groups and both treatment groups are non-empty; otherwise it reports the source's "Insufficient baseline data" or "Insufficient treatment data" |
| CausalChecks.CheckPolicyChangeResult | rca/causal_checks.py:160-169 | on success all four groups are non-empty and the estimate is (treatment after - treatment before) - (baseline after - baseline before), the source's argument order |
| CausalChecks.CompareGroups | rca/causal_checks.py:154-169 | success iff all four groups are non-empty; an empty baseline group gives "Insufficient baseline data" before an empty treatment group gives "Insufficient treatment data"; the estimate is the diff-in-diff of the four groups, regrouped by period as (treatment after - treatment before) - (baseline after - baseline before) |
| CausalChecks.Lagged | rca/causal_checks.py:192 | shift(lag): row i pairs the feature of row i - lag, missing outside the series, with its own target |
| CausalChecks.CleanSkipsLeading | rca/causal_checks.py:192-195 | dropna removes at least the leading rows whose shifted feature is missing |
| CausalChecks.TemporalCorrelation | rca/causal_checks.py:171-211 | the correlation is significant iff its p-value is below 0.05 |
| CausalChecks.ShortSeriesNotSignificant | rca/causal_checks.py:197-198 | fewer than ten usable rows give correlation 0, p-value 1, not significant and no lag |
| CausalChecks.RawAttributionMembers | rca/causal_checks.py:229-232 | each raw entry is a feature present in both periods with importance * abs(after - before) |
| CausalChecks.Normalize | rca/causal_checks.py:236-237 | keeps the features and divides every score by the total |
| CausalChecks.AttributionShape | rca/causal_checks.py:227-239 | the scores are divided by their total only when the total is positive, and are returned unchanged otherwise; features are kept in order |
| CausalChecks.AttributionSumsToOne | rca/causal_checks.py:227-239 | with a positive total the normalised scores add up to one |
| CausalChecks.AttributionNonNegative | rca/causal_checks.py:227-239 | with non-negative importances every attribution score is non-negative |
| CausalChecks.CalculateAttributionScore | rca/causal_checks.py:213-239 | the loop returns the attribution specified by Attribution |
| CausalChecks.ConfidenceScoreBounds | rca/causal_checks.py:255-275 | the cap at 1 never binds: confidence is the sum of the three evidence terms, lies in [0, 1] for non-negative SHAP values, and is 0 without evidence |
| CausalChecks.ConfidenceScoreMonotone | rca/causal_checks.py:255-275 | a significant diff-in-diff adds 0.2 over an insignificant one, which adds 0.2 over none; a significant correlation adds 0.2 |
| CausalChecks.CalculateConfidenceScore | rca/causal_checks.py:241-275 | the method returns the confidence specified by ConfidenceScore |
| RcaReport.OutcomeColumn | rca/report_generator.py:126-133 | cancellation_rate tests canceled_flag, refund_rate tests has_refund, every other metric tests is_late |
| RcaReport.LateFlagsFacts | rca/report_generator.py:220-237 | one flag per label of the deliveries frame: the delivery labelled i is flagged iff merged row number i has an actual ETA more than 300 seconds after the promise; all False when no merged row was delivered; the write raises iff a delivered row's number is not a delivery label |
| RcaReport.LateFlagsAligned | rca/report_generator.py:220-237 | when the deliveries are labelled 0, 1, ... in the merge's row order, the k-th delivery is flagged iff the k-th merged row is late |
| RcaReport.LateFlagsFollowLabels | rca/report_generator.py:226-235 | windowed deliveries keep their labels: labels 5 and 6 make the write raise, and swapped labels put a late row's flag on the other delivery |
| RcaReport.LateFlagMonotone | rca/report_generator.py:230-231 | a later delivery against the same promise is late whenever an earlier one is; a row without actual ETA is never late |
| RcaReport.TopIndex | rca/report_generator.py:208-211 | the index of the first largest SHAP value |
| RcaReport.Impact | rca/report_generator.py:207-213 | the largest SHAP value, or 0.5 without SHAP values |
| RcaReport.TestHypothesis | rca/report_generator.py:200-218 | a tested hypothesis carries its evidence, the confidence from the causal checks, the impact, and score = confidence * impact |
| RcaReport.ScoreBounds | rca/report_generator.py:215-216 | with non-negative SHAP values the score lies between 0 and the impact |
| RcaReport.ProductBelow | rca/report_generator.py:215-216 | a confidence in [0, 1] times a non-negative impact lies between 0 and the impact |
| RcaReport.RankFacts | rca/report_generator.py:239-248 | ranking is a permutation, sorted by score descending, numbers the ranks 1, 2, ..., and keeps the input order of equal scores |
| RcaReport.RankHypotheses | rca/report_generator.py:239-248 | the loop returns the ranking specified by Rank |
| RcaReport.NarrativeShape | rca/report_generator.py:250-281 | no causes give "No hypotheses could be tested."; without a secondary cause the narrative is the headline, the SHAP sentence and the diff-in-diff sentence |
| RcaReport.NarrativeOpening | rca/report_generator.py:250-281 | a non-empty narrative opens with "Root cause analysis identified " and the top cause's name |
| RcaReport.NarrativeNamesTop | rca/report_generator.py:250-281 | the narrative names the top cause |
| RcaReport.NarrativeNamesSecondary | rca/report_generator.py:250-281 | a second cause with confidence above 0.5 is named as a secondary factor |
| RcaReport.SummaryFacts | rca/report_generator.py:283-300 | no causes give "No root causes identified."; otherwise the summary opens with the lower-cased top cause, names the secondary cause when there is one, and ends with a period |
| RcaReport.TestAll | rca/report_generator.py:67-86 | one tested cause per relevant hypothesis, in order |
| RcaReport.RankedFromTested | rca/report_generator.py:67-86 | every ranked cause comes from a relevant hypothesis |
| RcaReport.TestHypotheses | rca/report_generator.py:67-83 | the loop returns the causes specified by TestAll |
| RcaReport.GenerateRcaReport | rca/report_generator.py:30-103 | the report counts the relevant hypotheses, ranks all of them by score with ranks 1..n as a permutation of the tested causes, has a top cause iff one was tested, and carries the narrative and the summary of the ranking |
| RcaReport.Repeat | rca/report_generator.py:305 | a rule of n copies of the character |
| RcaReport.CausesLines | rca/report_generator.py:325-332 | six lines per shown cause |
| RcaReport.ReportLinesCount | rca/report_generator.py:302-334 | the text report has 17 fixed lines and six more for each of the first five causes |
| Actions.TemplateFacts | recommendations/action_engine.py:35-99 | every template's complexity is low, medium or high, every CX impact is positive, and only dasher assignment improves efficiency |
| Actions.Find | recommendations/action_engine.py:151-161 | a name maps to a template iff the table lists that pair; an unlisted name maps to none |
| Actions.FindAt | recommendations/action_engine.py:151-161 | a listed name finds its own template when no earlier row has the same name |
| Actions.MappingDistinct | recommendations/action_engine.py:151-161 | the mapping table lists each hypothesis name once and each template once |
| Actions.MappingInjective | recommendations/action_engine.py:151-161 | two hypothesis names that map to the same template are the same name |
| Actions.CatalogMapping | recommendations/action_engine.py:151-161 | each catalog hypothesis maps to its template: dasher shortage to dasher assignment, prep-time drift to ETA buffer, batching to batching threshold, inventory to SKU suppression, ETA model to prep-time model |
| Actions.CatalogHasTemplates | recommendations/action_engine.py:151-161 | every hypothesis of the catalog has a template |
| Actions.TemplatesServeCatalog | recommendations/action_engine.py:151-161 | every template serves some catalog hypothesis |
| Actions.ActionIdInjective | recommendations/action_engine.py:131 | different positions give different action ids |
| Actions.ActionAtFacts | recommendations/action_engine.py:115-142 | a cause yields an action iff it has a hypothesis name with a template; the action carries its position's id, the template, the confidence (0.5 by default), CX impact = base impact * confidence and the given cohorts |
| Actions.CandidatesFrom | recommendations/action_engine.py:113-144 | every candidate comes from one of the first n causes, and every such cause with a template yields a candidate |
| Actions.CandidatesIds | recommendations/action_engine.py:113-144 | candidate ids are distinct and come from the first n positions |
| Actions.ActionsSorted | recommendations/action_engine.py:146-149 | at most three actions, a permutation of the candidates, sorted by CX impact descending, keeping the candidates' order among equal impacts |
| Actions.ActionsFromCauses | recommendations/action_engine.py:115-123 | every action comes from one of the top three causes, and each of them with a template yields an action |
| Actions.ActionsDistinctIds | recommendations/action_engine.py:131 | no two actions share an id |
| Actions.GenerateActions | recommendations/action_engine.py:101-149 | the loop returns the actions specified by Actions |
| Actions.CollectActions | recommendations/action_engine.py:112-143 | the loop over the first n causes appends, in cause order, the action of each cause whose hypothesis maps to a template, and skips the others |
| Tradeoffs.NetBenefitLinear | recommendations/tradeoff_calculator.py:34-41 | the net benefit moves by 0.007 per point of CX impact and 0.03 per point of efficiency impact, so it is monotone in both |
| Tradeoffs.RoiFacts | recommendations/tradeoff_calculator.py:45 | the ROI is infinite iff the efficiency impact is 0; otherwise ROI * abs(efficiency) == CX impact, it has the sign of the CX impact and ignores the efficiency's sign |
| Tradeoffs.RecommendationBands | recommendations/tradeoff_calculator.py:60-69 | strong_recommend iff benefit > 0.1 and confidence > 0.7; recommend iff not that but benefit > 0.05 and confidence > 0.6; not_recommended iff benefit <= 0 |
| Tradeoffs.RecommendationMonotone | recommendations/tradeoff_calculator.py:60-69 | a larger benefit and confidence never give a weaker recommendation |
| Tradeoffs.TradeoffFacts | recommendations/tradeoff_calculator.py:18-58 | the risk-adjusted benefit lies between 0 and the net benefit, equals it at full confidence, and any recommendation above not_recommended has a positive net benefit |
| Tradeoffs.WithTradeoffs | recommendations/tradeoff_calculator.py:83-93 | one entry per action, pairing it with its trade-off under the defaults 0, 0 and 0.5 |
| Tradeoffs.CompareActionsFacts | recommendations/tradeoff_calculator.py:71-98 | the comparison is a permutation of the actions with their trade-offs, sorted by risk-adjusted benefit descending, keeping the input order among ties |
| Tradeoffs.CompareActionsLoop | recommendations/tradeoff_calculator.py:81-98 | the loop returns the list specified by CompareActions |
| Tradeoffs.ConfidenceIntervalFacts | recommendations/tradeoff_calculator.py:100-129 | the interval is centred on the expected value with width 2 * z * std; it is never inverted with the default 20% deviation, and with a given deviation iff it is non-negative |
| Tradeoffs.ZScoreDefault | recommendations/tradeoff_calculator.py:119-125 | a confidence level other than 0.90, 0.95 and 0.99 uses the 95% z value |
| Tradeoffs.FirstIndex | recommendations/tradeoff_calculator.py:175-180 | actions.index(x): the first position holding x |
| Tradeoffs.ExponentDistinct | recommendations/tradeoff_calculator.py:175-180 | among distinct actions, the discount exponent of an action is its position |
| Tradeoffs.CombinedCxDistinct | recommendations/tradeoff_calculator.py:175-180 | for distinct actions the combined CX impact is the sum of cx_i * 0.9^i |
| Tradeoffs.CombinedCxBelowSum | recommendations/tradeoff_calculator.py:175-180 | with non-negative impacts the combined CX impact lies between 0 and the plain sum |
| Tradeoffs.CalculateCombinedImpact | recommendations/tradeoff_calculator.py:165-193 | the loop returns the discounted CX sum, the plain efficiency sum, the mean confidence (none without actions) and the action count |
| Tradeoffs.CombinedImpactFacts | recommendations/tradeoff_calculator.py:176-192 | the mean confidence lies in [0, 1] for confidences in [0, 1]; distinct actions are discounted by position |
| WhatIf.CurrentMetrics | recommendations/whatif_simulator.py:46-62 | the cohort's metrics for a non-empty cohort, otherwise the metrics of all data; either way the CX score is the weighted score of the rates |
| WhatIf.RescoreAgrees | recommendations/whatif_simulator.py:78-86 | the simulator's score formula is the CX metrics formula: rescoring changes only the score, and leaves a consistent record unchanged |
| WhatIf.ScoreDelta | recommendations/whatif_simulator.py:88-91 | the score change is 30, 25, -15, -15, -10 and 5 points per unit change of the six rates |
| WhatIf.SimulateBatchingReduction | recommendations/whatif_simulator.py:22-104 | starts from the current metrics and applies the batching change to them |
| WhatIf.BatchingFacts | recommendations/whatif_simulator.py:64-104 | only on-time rate, cancellation rate and score change; the rates are capped at 1 and floored at 0; on-time gains at most 0.15 and cancellation falls at most 0.10 per unit reduction; efficiency impact -5 per unit; confidence 0.85 |
| WhatIf.BatchingReductionHelps | recommendations/whatif_simulator.py:65-94 | the score change is 30 * on-time change - 15 * cancellation change; lowering the threshold never lowers the score or leaves the unit range, and costs efficiency iff it lowers the threshold |
| WhatIf.BatchingByReduction | recommendations/whatif_simulator.py:65 | the outcome depends only on the size of the reduction |
| WhatIf.BatchingMonotone | recommendations/whatif_simulator.py:65-86 | a larger reduction gives at least the on-time rate and score and at most the cancellation rate and efficiency impact |
| WhatIf.BufferGainFacts | recommendations/whatif_simulator.py:143-146 | the on-time gain is 0.05 per buffer hour, capped at 0.1 and reaching it iff the buffer is at least 120 minutes; it is monotone |
| WhatIf.SimulateEtaBuffer | recommendations/whatif_simulator.py:106-177 | starts from the current metrics and applies the buffer to them |
| WhatIf.EtaBufferFacts | recommendations/whatif_simulator.py:141-177 | only the on-time rate and score change; the gain is at most 0.1; wait time grows by the buffer; score change is 30 * on-time change; a non-negative buffer never lowers on-time rate or score |
| WhatIf.EtaBufferSaturates | recommendations/whatif_simulator.py:146-167 | beyond 120 minutes more buffer changes nothing but the wait time |
| WhatIf.SimulateSkuSuppression | recommendations/whatif_simulator.py:179-257 | starts from the current metrics and applies the suppression to them |
| WhatIf.SkuSuppressionFacts | recommendations/whatif_simulator.py:217-257 | only refund rate, item accuracy and score change; the refund rate falls by 0.06 floored at 0; accuracy gains 0.02 capped at 1; coverage -20, efficiency 0, confidence 0.70; on unit rates the score never falls |
| WhatIf.SkuThresholdIgnored | recommendations/whatif_simulator.py:184 | the confidence threshold does not affect the outcome, since the source never reads it after line 218 |
| WhatIf.SimulateActionRoutes | recommendations/whatif_simulator.py:259-298 | a lower-cased name containing "batching" goes to batching, else "eta" or "buffer" to the ETA buffer, else "sku" or "suppress" to suppression, else an "Unknown action" error; missing parameters take the defaults 0.5/0.3, 5 minutes and 0.3 |
| Pipeline.PeriodValue | detection/detection_pipeline.py:100-101 | a metric value is found only for names the period metrics carry; every such name except mean_stars (absent without ratings) has a value |
| Pipeline.PassesGateMeaning | detection/detection_pipeline.py:106-117 | cx_score passes iff it moved at least 5 points; any other metric passes iff its baseline is non-zero and it moved at least 5% of the baseline |
| Pipeline.PeriodTables | detection/detection_pipeline.py:61-83 | a period holds exactly the orders placed in [start, end), and its tickets belong to its orders |
| Pipeline.PeriodMetrics | detection/detection_pipeline.py:85-94 | a period's CX score lies in [0, 100] |
| Pipeline.StepsAt | detection/detection_pipeline.py:99-150 | the step for the k-th metric is that metric's gate, slicing and incident step |
| Pipeline.CreatedAppend | detection/detection_pipeline.py:97-152 | before a failure, each step adds its incident, if any, to the created list |
| Pipeline.CreatedStopsAtFailure | detection/detection_pipeline.py:97-152 | nothing after a failing step is created |
| Pipeline.CreatedFromSteps | detection/detection_pipeline.py:97-152 | every created incident comes from a creating step, at most one per metric, and without a failure exactly one per creating step |
| Pipeline.StepForFacts | detection/detection_pipeline.py:99-150 | a metric is skipped iff a period value is missing or the gate holds it back; a passing metric fails iff its slice ranking raises and otherwise creates an incident; that incident is new, has the given id and clock reading, both period values, the delta current - baseline, the ranked slices and the description |
| Pipeline.FailsMeaning | detection/detection_pipeline.py:96-150 | the run fails iff some metric that passes the gate has a slice ranking that raises |
| Pipeline.CreatedIsPassing | detection/detection_pipeline.py:96-152 | when no passing metric's ranking raises, nothing fails and the created incidents are, in metric order, exactly those of the metrics that pass the gate |
| Pipeline.CreatedFacts | detection/detection_pipeline.py:96-152 | fails iff a passing metric's ranking raises, and otherwise creates exactly the incidents of the passing metrics in order; at most one incident per checked metric, each new, with the id and clock reading of a checked metric whose change passed the gate, and delta current - baseline |
| Pipeline.DetectionPipeline.DetectIncidents | detection/detection_pipeline.py:30-152 | the manager's store grows by exactly the incidents created before any failure; the result is an error iff a step failed, and otherwise the created incidents |
| Pipeline.DetectionPipeline.DetectOver | detection/detection_pipeline.py:96-152 | the store grows by the created incidents; error iff a step failed |
| Pipeline.DetectionPipeline.DetectAll | detection/detection_pipeline.py:96-152 | the loop appends the created incidents in metric order and stops at the first failure |
| Pipeline.DetectionPipeline.DetectOne | detection/detection_pipeline.py:99-150 | one metric's step at its own clock reading; a created incident is appended to the store |
| Pipeline.DetectionPipeline.GetActiveIncidents | detection/detection_pipeline.py:154-156 | the manager's incidents sorted by (severity, detected_at) descending, and the store left sorted |
| Pipeline.DetectionPipeline.GetIncidentDetails | detection/detection_pipeline.py:158-176 | none iff no incident has the id; otherwise the detail record of the first incident with that id |
| OrderGen.Pick | data/generators/order_generator.py:124-139 | a random choice from a non-empty list is one of its elements |
| OrderGen.Range | data/generators/order_generator.py:194 | range(a, b): the b - a integers from a upwards |
| OrderGen.TimeOfDayOf | data/generators/order_generator.py:42-51 | every hour is given one of the four time-of-day labels (breakfast, lunch, dinner, late-night) |
| OrderGen.WindowHours | data/generators/order_generator.py:191-196 | every time of day has at least one candidate hour |
| OrderGen.HoursRoundTrip | data/generators/order_generator.py:191-196 | every hour drawn for a time of day is a clock hour that is classified back as that time of day |
| OrderGen.LateNightGap | data/generators/order_generator.py:42-51 | an hour is labelled late-night iff it is a late-night window hour or 15 or 16, which fall through every earlier branch |
| OrderGen.BasketSizeThresholds | data/generators/order_generator.py:53-60 | small below 25, medium from 25 below 75, large from 75 |
| OrderGen.BasketRange | data/generators/order_generator.py:62-82 | the basket-value range of a category and time of day is a positive, non-empty interval |
| OrderGen.PromisedEtaBounds | data/generators/order_generator.py:84-117 | the promise is the order time plus a positive number of whole minutes, between prep + travel and 1.5 * prep + travel |
| OrderGen.StoreIds | data/generators/order_generator.py:33-40 | the store list has 150 ids: 5 regions times 3 categories times 10 stores |
| OrderGen.StoreAt | data/generators/order_generator.py:33-40 | the id at position 30r + 10c + i - 1 is store_<region>_<category>_<i>, in the source's loop order |
| OrderGen.StoreIdInjective | data/generators/order_generator.py:33-40 | different (region, category, number) triples give different store ids |
| OrderGen.StoreIdsDistinct | data/generators/order_generator.py:33-40 | the 150 store ids are distinct |
| OrderGen.AppendStores | data/generators/order_generator.py:38-39 | the inner loop appends the ten stores of one region and category |
| OrderGen.GenerateStoreIds | data/generators/order_generator.py:33-40 | the nested loops build the store list specified by StoreIds |
| OrderGen.StoreIdHasPattern | data/generators/order_generator.py:137-138 | a store id contains the "_region_category_" pattern the order generator searches for |
| OrderGen.MatchingStoresFound | data/generators/order_generator.py:137-139 | for a known region and category the search finds at least one store, and every store found is a catalog store with the pattern |
| OrderGen.DailyOrdersFacts | data/generators/order_generator.py:170-174 | weekdays get the base count, weekend days int(1.2 * base); always between the base and 6/5 of it |
| OrderGen.DayOrders | data/generators/order_generator.py:177-203 | a day has exactly its daily order count |
| OrderGen.GenerateDay | data/generators/order_generator.py:177-203 | the loop generates the orders specified by DayOrders |
| OrderGen.GenerateOrders | data/generators/order_generator.py:161-208 | the day loop generates the orders specified by OrdersFrom |
| OrderGen.OrdersCount | data/generators/order_generator.py:164-208 | the number of orders lies between base * days and 6/5 * base * days |
| OrderGen.DayOrderFacts | data/generators/order_generator.py:186-199 | each order of a day is placed within that day, in the drawn time of day, and is well formed for a valid draw |
| OrderGen.OrderOnTime | data/generators/order_generator.py:186-199 | an order falls on its day and in its drawn time of day |
| OrderGen.OrderTimeFacts | data/generators/order_generator.py:186-199 | the drawn hour and minute stay within the day and classify back to the drawn time of day |
| OrderGen.OrderOnWellFormed | data/generators/order_generator.py:119-159 | an order from a valid draw has a known category and region, consistent time-of-day and basket labels, a value in range, the promised ETA of its attributes and a matching catalog store |
| OrderGen.OrdersWellFormed | data/generators/order_generator.py:119-159 | with valid draws every generated order is well formed |
| DeliveryGen.ShouldBatch | data/generators/delivery_generator.py:98-106 | batch iff the waiting orders, excluding the current one, number at least threshold - 1; the change date does not matter |
| DeliveryGen.ShouldBatchMonotone | data/generators/delivery_generator.py:98-106 | a longer queue batches whenever a shorter one does, at any time |
| DeliveryGen.BasePrepAgrees | data/generators/delivery_generator.py:38-43 | the delivery generator's base prep seconds are 60 times the order generator's base prep minutes |
| DeliveryGen.PrepTime | data/generators/delivery_generator.py:34-62 | prep time is never below 300 seconds |
| DeliveryGen.PrepTimeMonotone | data/generators/delivery_generator.py:56-60 | more drift never shortens prep time |
| DeliveryGen.PrepTimeNoDrift | data/generators/delivery_generator.py:53-62 | without drift prep time is at most 1.2 * base * peak multiplier (or the 300-second floor) |
| DeliveryGen.DistanceRange | data/generators/delivery_generator.py:64-76 | every region's distance range is a positive, non-empty interval |
| DeliveryGen.Distance | data/generators/delivery_generator.py:64-76 | a drawn distance lies within its region's range |
| DeliveryGen.TravelSeconds | data/generators/delivery_generator.py:121-124 | travel time is int(distance * 4 min * 60): the truncation of 240 * distance |
| DeliveryGen.DasherWaitFacts | data/generators/delivery_generator.py:78-96 | a single order waits 60 to 180 seconds; a batched one at least 270, at least 405 with a threshold of 4 or more, and never less with a larger batch or threshold |
| DeliveryGen.CancelProbabilityFacts | data/generators/delivery_generator.py:131-151 | the probability lies in [0.01, 0.225], grows with the delay, and batching multiplies it by 1.5 |
| DeliveryGen.DasherIds | data/generators/delivery_generator.py:23 | the dasher pool has 1000 ids |
| DeliveryGen.DasherIdsDistinct | data/generators/delivery_generator.py:23 | the dasher ids are distinct |
| DeliveryGen.GenerateDeliveryFacts | data/generators/delivery_generator.py:153-202 | a delivery keeps the order id; it is batched iff enough orders wait; a canceled delivery has no ETA, delivery time or dasher, and a completed one has all three; prep time, distance and dasher wait stay in their ranges; a draw below 0.01 always cancels |
| DeliveryGen.SetQueue | data/generators/delivery_generator.py:220-239 | replaces one store's queue, leaving every other store's queue and the stores' order unchanged |
| DeliveryGen.SetQueuePending | data/generators/delivery_generator.py:220-239 | replacing a store's queue swaps its orders in the pending multiset for the new ones |
| DeliveryGen.StepFacts | data/generators/delivery_generator.py:215-252 | per order: other stores' queues are unchanged; a batch releases the waiting orders and the new one, each with the batch size, and empties the queue; otherwise the oldest order is released alone iff it waited over 900 seconds |
| DeliveryGen.StepConserves | data/generators/delivery_generator.py:215-252 | a step releases or keeps every order: pending + released grows by exactly the new order |
| DeliveryGen.RunConserves | data/generators/delivery_generator.py:215-252 | after the loop, the pending and released orders together are exactly the input orders |
| DeliveryGen.RunWithin | data/generators/delivery_generator.py:215-252 | no queue ever holds more than threshold - 1 orders |
| DeliveryGen.FlushOrders | data/generators/delivery_generator.py:254-260 | the final flush releases exactly the pending orders, store by store |
| DeliveryGen.FlushWithin | data/generators/delivery_generator.py:254-260 | flushed orders report a batch size of at most the queue bound |
| DeliveryGen.ReleasesPermute | data/generators/delivery_generator.py:204-262 | every order gets exactly one delivery: the released orders are a permutation of the input |
| DeliveryGen.FlushedWithin | data/generators/delivery_generator.py:254-260 | orders released by the final flush report at most threshold - 1 waiting orders |
| DeliveryGen.DeliveryGenerator.SetBatchingThreshold | data/generators/delivery_generator.py:29-32 | sets the threshold and the change date |
| DeliveryGen.DeliveryGenerator.EmitBatch | data/generators/delivery_generator.py:232-236 | appends one delivery per batched order, each made with the batch size |
| DeliveryGen.DeliveryGenerator.GenerateDeliveries | data/generators/delivery_generator.py:204-262 | one delivery per order, the k-th made from the k-th release of the time-sorted batching run with the k-th draw |
| DeliveryGen.DeliveryGenerator.ProcessOrder | data/generators/delivery_generator.py:215-252 | the loop body performs one batching step and emits the deliveries of its releases |
| DeliveryGen.DeliveryGenerator.FlushQueues | data/generators/delivery_generator.py:254-260 | emits a delivery for every order still queued |
| ItemGen.SkuCatalog | data/generators/item_generator.py:24-42 | grocery offers 15 SKUs, convenience and retail 9 each |
| ItemGen.CatalogShaped | data/generators/item_generator.py:24-42 | every catalog SKU id starts with "sku_" |
| ItemGen.Get | data/generators/item_generator.py:45-79 | dict.get: the stored value for a listed key, the default otherwise |
| ItemGen.PriceRange | data/generators/item_generator.py:123 | every SKU price, including the 5.00 default, lies between 0.79 and 12.99 |
| ItemGen.AvgPrice | data/generators/item_generator.py:84-90 | every category's average price is positive |
| ItemGen.BaseItemCount | data/generators/item_generator.py:90-91 | max(1, int(basket / average price)): at least 1, and the truncation of the quotient when that is at least 1 |
| ItemGen.BaseItemCountMonotone | data/generators/item_generator.py:90-91 | a larger basket never has fewer base items |
| ItemGen.RandInt | data/generators/item_generator.py:94 | randint(lo, hi) lies within [lo, hi] |
| ItemGen.RandIntCovers | data/generators/item_generator.py:94 | every value of [lo, hi] can be drawn |
| ItemGen.ItemCount | data/generators/item_generator.py:81-96 | the item count is at least 1 and within 2 of the base count |
| ItemGen.ItemCountCovers | data/generators/item_generator.py:81-96 | every count of at least 1 within 2 of the base count can be drawn |
| ItemGen.SubstituteRate | data/generators/item_generator.py:98-116 | the substitution rate lies between 0.05 and 0.4 |
| ItemGen.MissingRate | data/generators/item_generator.py:98-116 | the missing rate lies between 0.02 and 0.3 |
| ItemGen.RatesAntitone | data/generators/item_generator.py:98-116 | a higher in-stock probability never raises either rate |
| ItemGen.RateLadders | data/generators/item_generator.py:98-116 | substitution is 0.4 below 0.3 in stock, 0.15 below 0.6, 0.05 above; missing is 0.3 below 0.2, 0.1 below 0.5, 0.02 above |
| ItemGen.ShouldFlagsAntitone | data/generators/item_generator.py:98-116 | for the same random draw, an item substituted or missing at a higher in-stock probability is so at a lower one too |
| ItemGen.Refund | data/generators/item_generator.py:118-128 | a missing item refunds its price, a substituted one half of it, others nothing; the refund is positive iff the item was missing or substituted |
| ItemGen.InventoryKey | data/generators/synthetic_data_generator.py:278-281 | the inventory key is the store id, an underscore and the SKU id |
| ItemGen.InStockProbBySku | data/generators/item_generator.py:148 | the lookup as written: the record under the bare SKU id, or 0.9 |
| ItemGen.BySkuLookupMisses | data/generators/item_generator.py:148 | when every record is keyed by store, the lookup as written always returns 0.9, so items always get the lowest rates |
| ItemGen.BySkuLookupIgnoresDegradation | data/generators/item_generator.py:148 | a degraded record of 0.15 is ignored by the lookup as written (missing rate 0.02) but used by the store-keyed lookup (missing rate 0.3) |
| ItemGen.BySkuItemsIgnoreInventory | data/generators/item_generator.py:143-168 | with store-keyed records, every generated item is looked up at 0.9 in stock, so it is substituted iff its draw is below 0.05 and missing iff not substituted and its draw is below 0.02, whatever the store's record |
| ItemGen.InStockProb | data/generators/synthetic_data_generator.py:278-281 | the corrected lookup: the record under the store-and-SKU key, or 0.9 |
| ItemGen.InStockProbFollowsRecord | data/generators/synthetic_data_generator.py:278-281 | with the corrected lookup the item rates follow the inventory record, and a record below 0.2 gives the top rates 0.4 and 0.3 |
| ItemGen.MakeItemFacts | data/generators/item_generator.py:143-168 | an item belongs to its order, has a catalog SKU and a quantity of 1 to 3, is never both substituted and missing, and is refunded by the refund rule; it is substituted iff its draw is below the substitution rate, and missing iff not substituted and its draw is below the missing rate, both rates taken at the in-stock probability found under the bare SKU id (or 0.9) |
| ItemGen.CorrectedItemFollowsRecord | data/generators/synthetic_data_generator.py:278-281 | an item built with the store-and-SKU lookup is substituted and missing at the rates of the store's record, the top rates 0.4 and 0.3 when that record is below 0.2 |
| ItemGen.OrderItems | data/generators/item_generator.py:130-170 | an order gets as many items as its drawn item count |
| ItemGen.OrderItemsFacts | data/generators/item_generator.py:130-170 | an order gets at least one item, each one of its own items |
| ItemGen.GenerateItems | data/generators/item_generator.py:130-170 | the loop generates the items specified by OrderItems |
| ItemGen.ItemsForFacts | data/generators/item_generator.py:172-182 | at least one item per order, and every item belongs to one of the orders |
| ItemGen.GenerateItemsForOrders | data/generators/item_generator.py:172-182 | the loop generates the items specified by ItemsFor |
| SyntheticGen.CounterIdInjective | data/generators/synthetic_data_generator.py:63 | different counters give different ids |
| SyntheticGen.DaysElapsed | data/generators/synthetic_data_generator.py:49 | the whole days elapsed since the start |
| SyntheticGen.DailyInStock | data/generators/synthetic_data_generator.py:48-51 | the daily in-stock probability is base - rate * days, clipped to [0.1, 1] |
| SyntheticGen.DailyInStockAntitone | data/generators/synthetic_data_generator.py:48-51 | with a non-negative degradation rate the probability never rises over time |
| SyntheticGen.EventInStock | data/generators/synthetic_data_generator.py:57-58 | the noisy probability is daily * noise, clipped to [0, 1] |
| SyntheticGen.Event | data/generators/synthetic_data_generator.py:57-69 | an event has the k + 1st id, its time, store and SKU, a probability in [0, 1], and is out of stock iff the probability is below 0.3 |
| SyntheticGen.InventoryEventsFacts | data/generators/synthetic_data_generator.py:28-75 | events are numbered inv_00000001 onwards, are distinct, each for a sampled store and SKU, with a valid probability and out-of-stock flag |
| SyntheticGen.EventsFromCount | data/generators/synthetic_data_generator.py:43-73 | six sample times per day, each with one event per sampled store and SKU |
| SyntheticGen.EmitSkus | data/generators/synthetic_data_generator.py:45-71 | the SKU loop appends one event per SKU and keeps the counter one past the count |
| SyntheticGen.EmitStores | data/generators/synthetic_data_generator.py:45-71 | the store loop appends the events of every store |
| SyntheticGen.EmitDay | data/generators/synthetic_data_generator.py:45-71 | the hour loop appends the events of the six sample hours |
| SyntheticGen.GenerateInventoryEvents | data/generators/synthetic_data_generator.py:28-75 | the loops produce the events specified by InventoryEvents |
| SyntheticGen.LateTicketTerm | data/generators/synthetic_data_generator.py:101-106 | lateness adds 0, 0.08 or 0.15 to the ticket probability |
| SyntheticGen.TicketProbability | data/generators/synthetic_data_generator.py:98-121 | a canceled order gets probability 1; others at most 0.5 |
| SyntheticGen.TicketProbabilityFacts | data/generators/synthetic_data_generator.py:98-121 | a canceled order always gets a ticket; an order with no late term (delay of at most 5 minutes, or an ETA missing) and no item problem never does; missing items give at least 0.25, substitutions 0.10, a delay of more than 10 minutes 0.15 |
| SyntheticGen.IssueTypePrecedence | data/generators/synthetic_data_generator.py:122-130 | the issue is missing_item iff not canceled and an item is missing, wrong_item iff only substituted, late otherwise; never other |
| SyntheticGen.TicketTime | data/generators/synthetic_data_generator.py:132-136 | two hours after ordering without delivery, otherwise 30 to 180 minutes after delivery |
| SyntheticGen.Ticket | data/generators/synthetic_data_generator.py:138-143 | a ticket has its counter's id, the order id and the issue type of its row |
| SyntheticGen.TicketsFacts | data/generators/synthetic_data_generator.py:96-145 | every ticket belongs to a row with its issue type, and ticket ids are distinct |
| SyntheticGen.CanceledGetsTicket | data/generators/synthetic_data_generator.py:96-145 | a canceled row adds a "late" ticket for its order |
| SyntheticGen.GenerateSupportEvents | data/generators/synthetic_data_generator.py:77-147 | the loop generates the tickets specified by Tickets |
| SyntheticGen.LatePenalty | data/generators/synthetic_data_generator.py:179-184 | lateness costs 0 to 2 stars |
| SyntheticGen.Stars | data/generators/synthetic_data_generator.py:174-199 | a rating has 1 to 5 stars |
| SyntheticGen.StarsFacts | data/generators/synthetic_data_generator.py:174-199 | a canceled order gets 1 star; otherwise 5 minus the late penalty, one for a missing item and one for a substitution (int() of 4.5 is 4) |
| SyntheticGen.StarsMonotone | data/generators/synthetic_data_generator.py:174-199 | a worse order never gets more stars |
| SyntheticGen.FreeText | data/generators/synthetic_data_generator.py:207-215 | text is present iff the draw is below 0.2, and its sentence follows the star band |
| SyntheticGen.RatingTime | data/generators/synthetic_data_generator.py:201-205 | 1 to 24 hours after delivery, or 2 to 24 hours after ordering without delivery |
| SyntheticGen.RatingFor | data/generators/synthetic_data_generator.py:217-223 | a rating has its counter's id, the order id and the row's stars |
| SyntheticGen.RatingsFacts | data/generators/synthetic_data_generator.py:172-225 | every rating belongs to a row, with 1 to 5 stars, and rating ids are distinct |
| SyntheticGen.GenerateRatings | data/generators/synthetic_data_generator.py:149-227 | the loop generates the ratings specified by Ratings |

Behaviour of the code that the model follows and a reader may not expect:
- The z-score window ends at the current point and includes it (`detection/anomaly_detector.py:52-58`).
- `create_incident` always appends a new incident, even for a metric that already has one (`detection/incident_manager.py:38-89`), and `update_incident_status` accepts any status from any status (`detection/incident_manager.py:153-157`).
- `get_all_cohorts` enumerates the full cartesian product of the values of every dimension given, however many there are (`metrics/cohort_slicer.py:67`).
- The confidence score adds 0.4, 0.4 and 0.2 and then caps at 1 (`rca/causal_checks.py:255-275`). With non-negative importances the sum never exceeds 1, so the cap never binds (`CausalChecks.ConfidenceScoreBounds`).
- The narrative names a secondary cause when its confidence exceeds 0.5 (`rca/report_generator.py:274-279`).
- Regressing slices are ordered by significance level and then by the magnitude of the delta only (`detection/slicing_engine.py:81-87`).
- `get_active_incidents` returns every stored incident, resolved ones included (`detection/incident_manager.py:200-202`).

## Left out

- `detect_metric_anomalies` (`detection/anomaly_detector.py:235-269`): a pandas wrapper that calls `detect_anomalies` once, on the named column with the combined method, and turns each flagged row into an event with its timestamp, value and a severity from `_calculate_severity`. `detect_anomalies`, its three detectors and the severity grading (`AnomalyDetection.AnomalySeverityMonotone`) are modelled; the event list is not.
- `rank_incidents` and `_calculate_severity_score` (`detection/incident_manager.py:159-190`): the score has a recency term read from the wall clock.
- `to_dataframe` in `incident_manager.py` and in the three generators: conversions to pandas frames.
- `get_slice_breakdown` and `prepare_visualization_data` (`detection/slicing_engine.py:187-265`): chart payloads for the front end.
- `get_cohort_summary` (`metrics/cohort_slicer.py:220-238`): a pandas summary frame.
- `get_action_details` (`recommendations/action_engine.py:163`) and `prepare_tradeoff_visualization` (`recommendations/tradeoff_calculator.py:131`): dictionaries for display.
- `generate_dataset` (`data/generators/synthetic_data_generator.py:229-310`): the orchestration and its pandas merges. Each generator it calls is modelled, and so is its inventory key. Its `default_prob` is computed but never used.
- `save_dataset` (`data/generators/synthetic_data_generator.py:312-319`): parquet file output.
- `generate_order` with an explicit region or category: the model always draws both, which is how `generate_orders` calls it.
- `rca/shap_analyzer.py`: a wrapper over scikit-learn and the `shap` library. Its importance map enters the report as a parameter.
- `percentileofscore`, `norm.cdf` and `pearsonr` from scipy: their percentile, p-value and correlation are parameters.
- Floating point: `round(...)` in the summaries, `sqrt` (replaced by squared comparisons), NaN beyond the cases written as `Option`, and `float('inf')` formatting. An infinite ROI is the `Roi.Infinite` case.
- Randomness, uuids and `datetime.now()`: random draws and ids are parameters, and the `generated_at` timestamps of reports are not carried.
- Merged data frames: the joined order, delivery, item, support and rating rows are parameters of the metric and generator functions that read them.
- The HTTP backend, the exports and the demo scripts are not part of this model.
- Pipeline.DetectionPipeline.DetectIncidents: computes the cohort metrics of both periods once before the metric loop, while the source recomputes them for each metric that passes. The values are the same.
- Pipeline.DetectionPipeline.DetectIncidents: the exception the source raises on a cohort value that is not a number (possible only for `mean_stars`) becomes an error result naming the metric; the incidents created before it stay in the store, as in the source.
- Pipeline.DetectionPipeline.DetectIncidents: `datetime.now()` is read once per created incident; the model takes the readings as the parameter `times`, one per checked metric, and does not assume they increase.
- Pipeline.Run: `describe` stands for the f-string `"{name} regressed from {baseline:.2f} to {current:.2f}"`; formatting reals to two decimals is not modelled.
- CxMetrics.CalculateEtaError: does not compute `std_error`, the sample standard deviation of the ETA errors (`metrics/cx_metrics.py:94,105`), because it needs a square root; so `CxMetrics.CalculateCxScore` has no `eta_std_error` field (`metrics/cx_metrics.py:253`).
- Cohorts.MetricGet: `eta_std_error` falls to the default 0 instead of the cohort's standard deviation, so comparing cohorts on that metric never finds a regression.
- Pipeline.PeriodValue: `eta_std_error` is absent, so a run asked to check that metric skips it where the source would gate on its change.
- CxMetrics.CalculateCxScore: the values are not rounded to 2 or 4 decimals (`metrics/cx_metrics.py:248-264`), so a change within the rounding step of a gate threshold may be decided differently.
- ItemGen.Refund: the refund is not rounded to cents (`data/generators/item_generator.py:165`).
- SyntheticGen.EventInStock: the recorded in-stock probability is not rounded to 3 decimals (`data/generators/synthetic_data_generator.py:66`).
- DeliveryGen.SortByTime: pandas' `sort_values` (`data/generators/delivery_generator.py:210`), like the one at `rca/causal_checks.py:189`, uses an unstable quicksort by default; the model sorts stably, so rows with equal times keep their input order, which pandas does not promise.
- AnomalyDetection.DetectAnomalies: takes the metric column already in time order; the `sort_values` at `detection/anomaly_detector.py:191` is not modelled, nor the order that unstable sort leaves among equal timestamps.
- CausalChecks.TemporalCorrelation: takes its rows already in time order; the `sort_values` at `rca/causal_checks.py:189` is not modelled, and neither is the order it leaves among rows with equal times.
- RcaReport.LateFlags: the merged rows are a parameter; the left merge of orders with deliveries that produces them is not part of this model. That a delivered row whose number is not a delivery label makes `.loc` raise is pandas' behaviour for a list of labels with missing entries.
- DeliveryGen.Distance: the drawn distance is not rounded to 2 decimals (`data/generators/delivery_generator.py:76`), so `DeliveryGen.TravelSeconds` truncates 240 times the unrounded distance.
- OrderGen.GenerateOrder: the basket value of the draw is not rounded to 2 decimals (`data/generators/order_generator.py:82`); a draw of 24.996 is labelled small, where the source rounds it to 25.00 and labels it medium.
- Strings.Lower: lowers ASCII letters only, where `str.lower` lowers every cased letter. It feeds `OrderGen.StoreId` (region names), `RcaReport.Summary` (hypothesis names) and `WhatIf.SimulateActionRoutes` (action names); the first two are ASCII in the source, and an action name with a non-ASCII capital may be routed differently.
- CausalChecks.CalculateAttributionScore: the importance dictionary is a sequence of (feature, importance) pairs, so it can list a feature twice where a dict cannot; the model then reports that feature twice.
- AnomalyDetection.DetectZScore: the window size is a `nat`, so a negative window size is not modelled; the same holds for the minimum segment size of `AnomalyDetection.DetectChangePoints`.
- Incidents.IncidentManager: incidents are values in a `seq`, so aliasing between a returned incident object and the stored one is not modelled.
- Tradeoffs.CompareActions: the input record and the computed trade-off fields are kept side by side rather than merged into one dictionary in which later keys override earlier ones.

## Findings

| source | as written | input that shows it | evidently intended | confidence | as-written member | corrected member |
|---|---|---|---|---|---|---|
| data/generators/item_generator.py:148 | items look up `inventory_probs` by the bare SKU id, but `data/generators/synthetic_data_generator.py:278-281` keys it by `store_id + "_" + sku_id`, so the lookup always misses and every item uses 0.9 | probabilities `{"store_sf_grocery_01_sku_milk_2gal": 0.15}` and SKU `sku_milk_2gal` give in-stock 0.9 and missing rate 0.02 instead of 0.15 and 0.3 | look the probability up under the store-and-SKU key, so that inventory degradation reaches the items | not executed; high | ItemGen.BySkuItemsIgnoreInventory | ItemGen.CorrectedItemFollowsRecord |
