/**
 * CX sub-metrics and the weighted CX score over the five tables, and the
 * restriction of every table to one cohort of orders.
 */
module CxMetrics {
  import opened Wrappers
  import opened Stats
  import opened Schema
  import Lists

  /** Tolerance of the on-time test, five minutes either side of the promise. */
  const OnTimeThresholdSeconds: int := 300

  const WeightOnTime: real := 0.30
  const WeightItemAccuracy: real := 0.25
  const WeightCancellation: real := 0.15
  const WeightRefund: real := 0.15
  const WeightSupport: real := 0.10
  const WeightRating: real := 0.05

  lemma WeightsSumToOne()
    ensures WeightOnTime + WeightItemAccuracy + WeightCancellation + WeightRefund
            + WeightSupport + WeightRating == 1.0
  {
  }

  // ---------------------------------------------------------------------------
  // On-time rate and ETA error
  // ---------------------------------------------------------------------------

  /** The deliveries of order `o`, paired with it, in delivery order. */
  function MatchesOf(o: Order, deliveries: seq<Delivery>): (r: seq<(Order, Delivery)>)
    ensures forall k :: 0 <= k < |r| ==> r[k].0 == o && r[k].1 in deliveries && r[k].1.orderId == o.orderId
  {
    if |deliveries| == 0 then []
    else
      var d := deliveries[|deliveries| - 1];
      MatchesOf(o, deliveries[..|deliveries| - 1]) + (if d.orderId == o.orderId then [(o, d)] else [])
  }

  /**
   * The rows of the left join of orders with deliveries on order id that have
   * a delivery; an order without one joins to an empty ETA and is dropped by
   * every later filter, so it is not kept.
   */
  function Joined(orders: seq<Order>, deliveries: seq<Delivery>): (r: seq<(Order, Delivery)>)
    ensures forall k :: 0 <= k < |r| ==> r[k].0 in orders && r[k].1 in deliveries && r[k].1.orderId == r[k].0.orderId
  {
    if |orders| == 0 then []
    else Joined(orders[..|orders| - 1], deliveries) + MatchesOf(orders[|orders| - 1], deliveries)
  }

  /** A joined row counts for punctuality when not canceled and delivered. */
  predicate Eligible(row: (Order, Delivery)) {
    !row.1.canceled && row.1.actualEta.Some?
  }

  function EligibleRows(rows: seq<(Order, Delivery)>): (r: seq<(Order, Delivery)>)
    ensures forall k :: 0 <= k < |r| ==> Eligible(r[k]) && r[k] in rows
    ensures forall row :: row in rows && Eligible(row) ==> row in r
  {
    if |rows| == 0 then []
    else EligibleRows(rows[..|rows| - 1]) + (if Eligible(rows[|rows| - 1]) then [rows[|rows| - 1]] else [])
  }

  /** Delivered within five minutes either side of the promised time. */
  predicate OnTime(row: (Order, Delivery))
    requires Eligible(row)
  {
    var actual := row.1.actualEta.value;
    row.0.promisedEta - OnTimeThresholdSeconds <= actual <= row.0.promisedEta + OnTimeThresholdSeconds
  }

  function OnTimeFlags(rows: seq<(Order, Delivery)>): (r: seq<bool>)
    requires forall k :: 0 <= k < |rows| ==> Eligible(rows[k])
    ensures |r| == |rows| && forall k :: 0 <= k < |rows| ==> r[k] == OnTime(rows[k])
  {
    seq(|rows|, k requires 0 <= k < |rows| => OnTime(rows[k]))
  }

  ghost predicate AllOnTime(rows: seq<(Order, Delivery)>)
    requires forall k :: 0 <= k < |rows| ==> Eligible(rows[k])
  {
    forall k :: 0 <= k < |rows| ==> OnTime(rows[k])
  }

  /**
   * Share of eligible joined rows delivered on time; 0.0 when there are none,
   * 1.0 exactly when there are some and all of them are on time.
   */
  function OnTimeRate(orders: seq<Order>, deliveries: seq<Delivery>): (r: real)
    ensures 0.0 <= r <= 1.0
    ensures EligibleRows(Joined(orders, deliveries)) == [] ==> r == 0.0
    ensures r == 1.0 <==> EligibleRows(Joined(orders, deliveries)) != [] && AllOnTime(EligibleRows(Joined(orders, deliveries)))
  {
    var e := EligibleRows(Joined(orders, deliveries));
    if |e| == 0 then 0.0 else FlagMean(OnTimeFlags(e))
  }

  /** Signed lateness of an eligible row in minutes. */
  function ErrorMinutes(row: (Order, Delivery)): real
    requires Eligible(row)
  {
    (row.1.actualEta.value - row.0.promisedEta) as real / 60.0
  }

  datatype EtaError = EtaError(meanAbsoluteError: real, meanError: real)

  /** Mean absolute and mean signed ETA error in minutes; both 0.0 when no row is eligible. */
  function CalculateEtaError(orders: seq<Order>, deliveries: seq<Delivery>): (r: EtaError)
    ensures r.meanAbsoluteError >= 0.0
    ensures Abs(r.meanError) <= r.meanAbsoluteError
  {
    var e := EligibleRows(Joined(orders, deliveries));
    if |e| == 0 then EtaError(0.0, 0.0)
    else
      var errors := seq(|e|, k requires 0 <= k < |e| => ErrorMinutes(e[k]));
      MeanAbsBound(errors);
      MeanBetween(AbsAll(errors), 0.0, MaxAbs(errors));
      EtaError(Mean(AbsAll(errors)), Mean(errors))
  }

  /** The largest absolute value, an upper bound for `MeanBetween`. */
  function MaxAbs(s: seq<real>): (m: real)
    ensures forall k :: 0 <= k < |s| ==> Abs(s[k]) <= m
    ensures m >= 0.0
  {
    if |s| == 0 then 0.0 else Max(MaxAbs(s[..|s| - 1]), Abs(s[|s| - 1]))
  }

  // ---------------------------------------------------------------------------
  // Item accuracy, cancellation, refund, support and rating
  // ---------------------------------------------------------------------------

  function SubstitutedFlags(items: seq<Item>): (r: seq<bool>)
    ensures |r| == |items| && forall k :: 0 <= k < |items| ==> r[k] == (items[k].substituted)
  {
    seq(|items|, k requires 0 <= k < |items| => items[k].substituted)
  }

  function MissingFlags(items: seq<Item>): (r: seq<bool>)
    ensures |r| == |items| && forall k :: 0 <= k < |items| ==> r[k] == (items[k].missing)
  {
    seq(|items|, k requires 0 <= k < |items| => items[k].missing)
  }

  function CleanFlags(items: seq<Item>): (r: seq<bool>)
    ensures |r| == |items| && forall k :: 0 <= k < |items| ==> r[k] == (!items[k].substituted && !items[k].missing)
  {
    seq(|items|, k requires 0 <= k < |items| => !items[k].substituted && !items[k].missing)
  }

  /** One minus the substituted and missing shares, clamped to [0, 1]; 1.0 without items. */
  function ItemAccuracy(items: seq<Item>): (r: real)
    ensures 0.0 <= r <= 1.0
    ensures |items| == 0 ==> r == 1.0
  {
    if |items| == 0 then 1.0
    else Clamp(1.0 - (FlagMean(SubstitutedFlags(items)) + FlagMean(MissingFlags(items))), 0.0, 1.0)
  }

  lemma {:induction false} CountPartition(items: seq<Item>)
    requires forall k :: 0 <= k < |items| ==> !(items[k].substituted && items[k].missing)
    ensures Count(SubstitutedFlags(items)) + Count(MissingFlags(items)) + Count(CleanFlags(items)) == |items|
  {
    if |items| > 0 {
      var init := items[..|items| - 1];
      CountPartition(init);
      assert SubstitutedFlags(items)[..|items| - 1] == SubstitutedFlags(init);
      assert MissingFlags(items)[..|items| - 1] == MissingFlags(init);
      assert CleanFlags(items)[..|items| - 1] == CleanFlags(init);
    }
  }

  /**
   * When no item is both substituted and missing (as the item generator
   * guarantees) the clamp never binds: accuracy is the share of clean items.
   */
  lemma ItemAccuracyIsCleanShare(items: seq<Item>)
    requires |items| > 0
    requires forall k :: 0 <= k < |items| ==> !(items[k].substituted && items[k].missing)
    ensures ItemAccuracy(items) == FlagMean(CleanFlags(items))
  {
    CountPartition(items);
    var n := |items| as real;
    var s := Count(SubstitutedFlags(items)) as real;
    var m := Count(MissingFlags(items)) as real;
    var c := Count(CleanFlags(items)) as real;
    assert FlagMean(SubstitutedFlags(items)) == s / n;
    assert FlagMean(MissingFlags(items)) == m / n;
    assert FlagMean(CleanFlags(items)) == c / n;
    SharesComplement(s, m, c, n);
  }

  lemma SharesComplement(s: real, m: real, c: real, n: real)
    requires n > 0.0 && s + m + c == n
    ensures 1.0 - (s / n + m / n) == c / n
  {
    var a := s / n;
    var b := m / n;
    assert a * n == s && b * n == m;
    calc { (1.0 - (a + b)) * n; == n - a * n - b * n; == c; }
    DivUnique(c, n, 1.0 - (a + b));
  }

  function CanceledFlags(deliveries: seq<Delivery>): (r: seq<bool>)
    ensures |r| == |deliveries| && forall k :: 0 <= k < |deliveries| ==> r[k] == deliveries[k].canceled
  {
    seq(|deliveries|, k requires 0 <= k < |deliveries| => deliveries[k].canceled)
  }

  /** Share of canceled deliveries; 0.0 without deliveries. */
  function CancellationRate(deliveries: seq<Delivery>): (r: real)
    ensures 0.0 <= r <= 1.0
    ensures r == 0.0 <==> forall k :: 0 <= k < |deliveries| ==> !deliveries[k].canceled
  {
    if |deliveries| == 0 then 0.0 else FlagMean(CanceledFlags(deliveries))
  }

  /** The distinct order ids of the items, in first-occurrence order. */
  function ItemOrderIds(items: seq<Item>): (r: seq<string>)
    ensures forall id :: id in r <==> exists k :: 0 <= k < |items| && items[k].orderId == id
    ensures forall i, j :: 0 <= i < j < |r| ==> r[i] != r[j]
    ensures |items| > 0 ==> |r| > 0
  {
    if |items| == 0 then []
    else
      var prev := ItemOrderIds(items[..|items| - 1]);
      var id := items[|items| - 1].orderId;
      assert forall k :: 0 <= k < |items| - 1 ==> items[..|items| - 1][k] == items[k];
      if id in prev then prev else prev + [id]
  }

  /** Total refund of one order, the group sum of its items' refunds. */
  function OrderRefund(items: seq<Item>, id: string): real {
    if |items| == 0 then 0.0
    else OrderRefund(items[..|items| - 1], id)
         + (if items[|items| - 1].orderId == id then items[|items| - 1].refundAmount else 0.0)
  }

  /** With non-negative refunds an order is refunded iff one of its items is. */
  lemma {:induction false} OrderRefundPositive(items: seq<Item>, id: string)
    requires forall k :: 0 <= k < |items| ==> items[k].refundAmount >= 0.0
    ensures OrderRefund(items, id) >= 0.0
    ensures OrderRefund(items, id) > 0.0 <==>
              exists k :: 0 <= k < |items| && items[k].orderId == id && items[k].refundAmount > 0.0
  {
    if |items| > 0 {
      var init := items[..|items| - 1];
      assert forall k :: 0 <= k < |init| ==> init[k] == items[k];
      OrderRefundPositive(init, id);
      if OrderRefund(init, id) > 0.0 {
        var k :| 0 <= k < |init| && init[k].orderId == id && init[k].refundAmount > 0.0;
        assert items[k] == init[k];
      }
    }
  }

  /** Share of item-bearing orders whose summed refund is positive; 0.0 without items. */
  function RefundRate(items: seq<Item>): (r: real)
    ensures 0.0 <= r <= 1.0
    ensures |items| == 0 ==> r == 0.0
  {
    if |items| == 0 then 0.0
    else
      var ids := ItemOrderIds(items);
      FlagMean(seq(|ids|, k requires 0 <= k < |ids| => OrderRefund(items, ids[k]) > 0.0))
  }

  /** Every item carries a refund: then every order counts as refunded. */
  lemma RefundRateAllRefunded(items: seq<Item>)
    requires |items| > 0
    requires forall k :: 0 <= k < |items| ==> items[k].refundAmount > 0.0
    ensures RefundRate(items) == 1.0
  {
    var ids := ItemOrderIds(items);
    var flags := seq(|ids|, k requires 0 <= k < |ids| => OrderRefund(items, ids[k]) > 0.0);
    forall k | 0 <= k < |ids| ensures flags[k] {
      OrderRefundPositive(items, ids[k]);
      assert ids[k] in ids;
    }
  }

  function OrderIdSet(orders: seq<Order>): set<string> {
    set k | 0 <= k < |orders| :: orders[k].orderId
  }

  function SupportIdSet(support: seq<SupportEvent>): set<string> {
    set k | 0 <= k < |support| :: support[k].orderId
  }

  /** Every ticket belongs to an order of the table. */
  predicate TicketsOfKnownOrders(orders: seq<Order>, support: seq<SupportEvent>) {
    SupportIdSet(support) <= OrderIdSet(orders)
  }

  lemma {:induction false} SubsetCardinality(a: set<string>, b: set<string>)
    requires a <= b
    ensures |a| <= |b|
  {
    if a != {} {
      var x :| x in a;
      SubsetCardinality(a - {x}, b - {x});
    }
  }

  /**
   * Distinct ticketed order ids over distinct order ids; 0.0 without orders.
   * The second zero guard of the source cannot fire once there is an order.
   * Tickets only for known orders keep the rate within [0, 1].
   */
  function SupportRate(orders: seq<Order>, support: seq<SupportEvent>): (r: real)
    ensures r >= 0.0
    ensures |orders| == 0 ==> r == 0.0
    ensures TicketsOfKnownOrders(orders, support) ==> r <= 1.0
  {
    if |orders| == 0 then 0.0
    else
      var total := |OrderIdSet(orders)|;
      if total == 0 then 0.0
      else
        var tickets := |SupportIdSet(support)|;
        if TicketsOfKnownOrders(orders, support) then
          SubsetCardinality(SupportIdSet(support), OrderIdSet(orders));
          DivOrdered(tickets as real, total as real, total as real);
          tickets as real / total as real
        else tickets as real / total as real
  }

  function Stars(ratings: seq<Rating>): seq<real> {
    seq(|ratings|, k requires 0 <= k < |ratings| => ratings[k].stars as real)
  }

  /** `(mean stars - 1) / 4` clamped to [0, 1]; a neutral 0.5 without ratings. */
  function RatingProxy(ratings: seq<Rating>): (r: real)
    ensures 0.0 <= r <= 1.0
    ensures |ratings| == 0 ==> r == 0.5
  {
    if |ratings| == 0 then 0.5 else Clamp((Mean(Stars(ratings)) - 1.0) / 4.0, 0.0, 1.0)
  }

  /** Ratings on the 1-5 scale map linearly onto [0, 1] with no clamping. */
  lemma RatingProxyUnclamped(ratings: seq<Rating>)
    requires |ratings| > 0
    requires forall k :: 0 <= k < |ratings| ==> 1 <= ratings[k].stars <= 5
    ensures RatingProxy(ratings) == (Mean(Stars(ratings)) - 1.0) / 4.0
  {
    MeanBetween(Stars(ratings), 1.0, 5.0);
  }

  // ---------------------------------------------------------------------------
  // CX score
  // ---------------------------------------------------------------------------

  datatype Rates = Rates(
    onTime: real,
    itemAccuracy: real,
    cancellation: real,
    refund: real,
    support: real,
    rating: real)

  predicate UnitRates(r: Rates) {
    0.0 <= r.onTime <= 1.0 && 0.0 <= r.itemAccuracy <= 1.0 && 0.0 <= r.cancellation <= 1.0
    && 0.0 <= r.refund <= 1.0 && 0.0 <= r.support <= 1.0 && 0.0 <= r.rating <= 1.0
  }

  /**
   * Weighted sum of the six 0-100 component scores, the three "lower is
   * better" rates inverted. With rates in [0, 1] the score lies in [0, 100]
   * and reaches 100 only for a perfect record.
   */
  function CxScore(r: Rates): (s: real)
    ensures UnitRates(r) ==> 0.0 <= s <= 100.0
    ensures UnitRates(r) ==>
              (s == 100.0 <==> r.onTime == 1.0 && r.itemAccuracy == 1.0 && r.cancellation == 0.0
                               && r.refund == 0.0 && r.support == 0.0 && r.rating == 1.0)
  {
    WeightOnTime * (r.onTime * 100.0)
    + WeightItemAccuracy * (r.itemAccuracy * 100.0)
    + WeightCancellation * ((1.0 - r.cancellation) * 100.0)
    + WeightRefund * ((1.0 - r.refund) * 100.0)
    + WeightSupport * ((1.0 - r.support) * 100.0)
    + WeightRating * (r.rating * 100.0)
  }

  /** Raising any good rate, or lowering any bad one, never lowers the score. */
  lemma CxScoreMonotone(a: Rates, b: Rates)
    requires a.onTime <= b.onTime && a.itemAccuracy <= b.itemAccuracy && a.rating <= b.rating
    requires a.cancellation >= b.cancellation && a.refund >= b.refund && a.support >= b.support
    ensures CxScore(a) <= CxScore(b)
  {
  }

  /** The record the metrics calculator returns (before rounding). */
  datatype Metrics = Metrics(
    cxScore: real,
    onTimeRate: real,
    onTimeScore: real,
    etaMeanAbsoluteError: real,
    etaMeanError: real,
    itemAccuracy: real,
    itemAccuracyScore: real,
    cancellationRate: real,
    cancellationScore: real,
    refundRate: real,
    refundScore: real,
    supportRate: real,
    supportScore: real,
    ratingProxy: real,
    ratingScore: real,
    meanStars: Option<real>)

  function CalculateCxScore(orders: seq<Order>, deliveries: seq<Delivery>, items: seq<Item>,
                            support: seq<SupportEvent>, ratings: seq<Rating>): (m: Metrics)
    ensures TicketsOfKnownOrders(orders, support) ==> 0.0 <= m.cxScore <= 100.0
    ensures m.cxScore == CxScore(Rates(m.onTimeRate, m.itemAccuracy, m.cancellationRate,
                                       m.refundRate, m.supportRate, m.ratingProxy))
    ensures m.onTimeScore == m.onTimeRate * 100.0 && m.cancellationScore == (1.0 - m.cancellationRate) * 100.0
    ensures m.meanStars.Some? <==> |ratings| > 0
  {
    var onTime := OnTimeRate(orders, deliveries);
    var eta := CalculateEtaError(orders, deliveries);
    var accuracy := ItemAccuracy(items);
    var cancellation := CancellationRate(deliveries);
    var refund := RefundRate(items);
    var supportRate := SupportRate(orders, support);
    var rating := RatingProxy(ratings);
    Metrics(
      CxScore(Rates(onTime, accuracy, cancellation, refund, supportRate, rating)),
      onTime, onTime * 100.0,
      eta.meanAbsoluteError, eta.meanError,
      accuracy, accuracy * 100.0,
      cancellation, (1.0 - cancellation) * 100.0,
      refund, (1.0 - refund) * 100.0,
      supportRate, (1.0 - supportRate) * 100.0,
      rating, rating * 100.0,
      if |ratings| == 0 then None else Some(Mean(Stars(ratings))))
  }

  // ---------------------------------------------------------------------------
  // Cohort restriction
  // ---------------------------------------------------------------------------

  /** The rows whose cell under column `key` equals `value`. */
  function KeepEqual(rows: seq<Order>, key: string, value: Cell): (r: seq<Order>)
    ensures |r| <= |rows|
  {
    if |rows| == 0 then []
    else KeepEqual(rows[..|rows| - 1], key, value)
         + (if Column(rows[|rows| - 1], key) == Some(value) then [rows[|rows| - 1]] else [])
  }

  /**
   * The cohort filter as written: one equality filter per cohort item, in
   * dictionary order, skipping keys that are not columns of the table.
   */
  function FilterByCohort(rows: seq<Order>, cohort: seq<(string, Cell)>): (r: seq<Order>)
    decreases |cohort|
  {
    if |cohort| == 0 then rows
    else
      var (key, value) := cohort[0];
      FilterByCohort(if key in OrderColumns then KeepEqual(rows, key, value) else rows, cohort[1..])
  }

  /** Reference filter: the rows matching the whole cohort at once, in order. */
  function KeepMatching(rows: seq<Order>, cohort: seq<(string, Cell)>): (r: seq<Order>)
    ensures |r| <= |rows|
    ensures forall o :: o in r <==> o in rows && MatchesCohort(o, cohort)
  {
    if |rows| == 0 then []
    else KeepMatching(rows[..|rows| - 1], cohort)
         + (if MatchesCohort(rows[|rows| - 1], cohort) then [rows[|rows| - 1]] else [])
  }

  /** Matching a cohort with one more item in front. */
  lemma MatchesCons(o: Order, key: string, value: Cell, cohort: seq<(string, Cell)>)
    ensures MatchesCohort(o, [(key, value)] + cohort)
        <==> (key in OrderColumns ==> Column(o, key) == Some(value)) && MatchesCohort(o, cohort)
  {
    var full := [(key, value)] + cohort;
    assert full[0] == (key, value);
    assert forall i :: 0 <= i < |cohort| ==> full[i + 1] == cohort[i];
    if MatchesCohort(o, full) {
      forall i | 0 <= i < |cohort| && cohort[i].0 in OrderColumns ensures Column(o, cohort[i].0) == Some(cohort[i].1) {
        assert full[i + 1] == cohort[i];
      }
    }
  }

  lemma {:induction false} KeepMatchingAfterEqual(rows: seq<Order>, key: string, value: Cell,
                                                  cohort: seq<(string, Cell)>)
    requires key in OrderColumns
    ensures KeepMatching(KeepEqual(rows, key, value), cohort) == KeepMatching(rows, [(key, value)] + cohort)
  {
    if |rows| > 0 {
      var init := rows[..|rows| - 1];
      var o := rows[|rows| - 1];
      var full := [(key, value)] + cohort;
      KeepMatchingAfterEqual(init, key, value, cohort);
      MatchesCons(o, key, value, cohort);
      var kept := KeepEqual(init, key, value);
      assert KeepMatching(rows, full) == KeepMatching(init, full) + (if MatchesCohort(o, full) then [o] else []);
      if Column(o, key) == Some(value) {
        assert KeepEqual(rows, key, value) == kept + [o];
        assert (kept + [o])[..|kept|] == kept;
        assert KeepMatching(kept + [o], cohort) == KeepMatching(kept, cohort) + (if MatchesCohort(o, cohort) then [o] else []);
      } else {
        assert KeepEqual(rows, key, value) == kept;
      }
    }
  }

  lemma {:induction false} KeepMatchingSkip(rows: seq<Order>, key: string, value: Cell, cohort: seq<(string, Cell)>)
    requires key !in OrderColumns
    ensures KeepMatching(rows, cohort) == KeepMatching(rows, [(key, value)] + cohort)
  {
    if |rows| > 0 {
      KeepMatchingSkip(rows[..|rows| - 1], key, value, cohort);
      MatchesCons(rows[|rows| - 1], key, value, cohort);
    }
  }

  lemma {:induction false} KeepMatchingEmpty(rows: seq<Order>)
    ensures KeepMatching(rows, []) == rows
  {
    if |rows| > 0 {
      var n := |rows| - 1;
      KeepMatchingEmpty(rows[..n]);
      assert MatchesCohort(rows[n], []);
      Lists.SplitLast(rows);
    }
  }

  /**
   * Filtering key by key is the same as keeping, in order, exactly the rows
   * that equal the cohort on every key that is a column.
   */
  lemma {:induction false} FilterByCohortMatches(rows: seq<Order>, cohort: seq<(string, Cell)>)
    ensures FilterByCohort(rows, cohort) == KeepMatching(rows, cohort)
    decreases |cohort|
  {
    if |cohort| == 0 {
      KeepMatchingEmpty(rows);
    } else {
      var (key, value) := cohort[0];
      assert cohort == [(key, value)] + cohort[1..];
      if key in OrderColumns {
        FilterByCohortMatches(KeepEqual(rows, key, value), cohort[1..]);
        KeepMatchingAfterEqual(rows, key, value, cohort[1..]);
      } else {
        FilterByCohortMatches(rows, cohort[1..]);
        KeepMatchingSkip(rows, key, value, cohort[1..]);
      }
    }
  }

  /** The rows of a table whose order id is in `ids` (pandas `isin`). */
  function Restrict<T(!new)>(rows: seq<T>, orderId: T -> string, ids: set<string>): (r: seq<T>)
    ensures forall x :: x in r <==> x in rows && orderId(x) in ids
  {
    if |rows| == 0 then []
    else Restrict(rows[..|rows| - 1], orderId, ids)
         + (if orderId(rows[|rows| - 1]) in ids then [rows[|rows| - 1]] else [])
  }

  /**
   * Metrics of one cohort: the orders filtered by the cohort, and every other
   * table cut down to the surviving order ids. Support tickets then only
   * belong to known orders, so the score lies within [0, 100].
   */
  function MetricsForCohort(cohort: seq<(string, Cell)>, orders: seq<Order>, deliveries: seq<Delivery>,
                            items: seq<Item>, support: seq<SupportEvent>, ratings: seq<Rating>): (m: Metrics)
    ensures 0.0 <= m.cxScore <= 100.0
  {
    var filtered := FilterByCohort(orders, cohort);
    FilterByCohortMatches(orders, cohort);
    var ids := OrderIdSet(filtered);
    var tickets := Restrict(support, (e: SupportEvent) => e.orderId, ids);
    assert TicketsOfKnownOrders(filtered, tickets) by {
      forall id | id in SupportIdSet(tickets) ensures id in OrderIdSet(filtered) {
        var k :| 0 <= k < |tickets| && tickets[k].orderId == id;
        assert tickets[k] in tickets;
      }
    }
    CalculateCxScore(filtered,
                     Restrict(deliveries, (d: Delivery) => d.orderId, ids),
                     Restrict(items, (i: Item) => i.orderId, ids),
                     tickets,
                     Restrict(ratings, (t: Rating) => t.orderId, ids))
  }

  /** Restricting to a set that holds every row's order id keeps the whole table. */
  lemma {:induction false} RestrictAll<T(!new)>(rows: seq<T>, orderId: T -> string, ids: set<string>)
    requires forall k :: 0 <= k < |rows| ==> orderId(rows[k]) in ids
    ensures Restrict(rows, orderId, ids) == rows
  {
    if |rows| > 0 {
      var n := |rows| - 1;
      var init := rows[..n];
      RestrictAll(init, orderId, ids);
      assert orderId(rows[n]) in ids;
      assert Restrict(rows, orderId, ids) == init + [rows[n]];
      assert init + [rows[n]] == rows;
    }
  }

  /**
   * The empty cohort stands for all data: when every row of the other tables
   * belongs to a known order, its metrics are those of the whole data set.
   */
  lemma MetricsForEmptyCohort(orders: seq<Order>, deliveries: seq<Delivery>, items: seq<Item>,
                              support: seq<SupportEvent>, ratings: seq<Rating>)
    requires forall k :: 0 <= k < |deliveries| ==> deliveries[k].orderId in OrderIdSet(orders)
    requires forall k :: 0 <= k < |items| ==> items[k].orderId in OrderIdSet(orders)
    requires forall k :: 0 <= k < |support| ==> support[k].orderId in OrderIdSet(orders)
    requires forall k :: 0 <= k < |ratings| ==> ratings[k].orderId in OrderIdSet(orders)
    ensures MetricsForCohort([], orders, deliveries, items, support, ratings)
         == CalculateCxScore(orders, deliveries, items, support, ratings)
  {
    var ids := OrderIdSet(orders);
    assert FilterByCohort(orders, []) == orders;
    RestrictAll(deliveries, (d: Delivery) => d.orderId, ids);
    RestrictAll(items, (i: Item) => i.orderId, ids);
    RestrictAll(support, (e: SupportEvent) => e.orderId, ids);
    RestrictAll(ratings, (t: Rating) => t.orderId, ids);
  }
}
