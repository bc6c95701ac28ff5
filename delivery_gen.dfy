/**
 * The delivery generator: one delivery per order, with merchant prep time,
 * dasher wait, travel, noise and cancellation drawn at random, and orders of
 * the same store held in a queue until the batching policy releases them.
 * Every random draw is a parameter; timestamps are whole seconds.
 */
module DeliveryGen {
  import opened Wrappers
  import opened Stats
  import opened Strings
  import opened Lists
  import opened Schema
  import OrderGen

  // ---------------------------------------------------------------------------
  // Batching policy
  // ---------------------------------------------------------------------------

  /** The batching threshold and the optional date from which it applies. */
  datatype Policy = Policy(threshold: int, changeDate: Option<int>)

  /**
   * `_should_batch`: a queue of `queueLen` orders waiting besides the current
   * one is batched once it reaches `threshold - 1`. Before and after the
   * policy-change date the same rule applies, so the date never matters.
   */
  function ShouldBatch(p: Policy, orderTime: int, queueLen: nat): (b: bool)
    ensures b <==> queueLen >= p.threshold - 1
  {
    if p.changeDate.Some? && orderTime >= p.changeDate.value then queueLen >= p.threshold - 1
    else queueLen >= p.threshold - 1
  }

  /** A longer queue is batched whenever a shorter one is. */
  lemma ShouldBatchMonotone(p: Policy, t: int, t': int, n: nat, n': nat)
    requires n <= n' && ShouldBatch(p, t, n)
    ensures ShouldBatch(p, t', n')
  {
  }

  // ---------------------------------------------------------------------------
  // Random draws of one delivery
  // ---------------------------------------------------------------------------

  /**
   * The draws `generate_delivery` makes: the prep-time factor, the position of
   * the distance within the region's range, the single-order wait, the
   * batched-wait factor, the ETA noise, the cancellation draw and the dasher.
   */
  datatype DeliveryDraw = DeliveryDraw(
    prepFactor: real,
    distance: real,
    singleWait: int,
    waitFactor: real,
    etaNoise: int,
    cancelDraw: real,
    dasher: nat)

  /** Each draw within the range its `random` call produces. */
  predicate ValidDraw(d: DeliveryDraw) {
    && 0.8 <= d.prepFactor <= 1.2
    && 0.0 <= d.distance <= 1.0
    && 60 <= d.singleWait <= 180
    && 0.9 <= d.waitFactor <= 1.3
    && -300 <= d.etaNoise <= 600
    && 0.0 <= d.cancelDraw < 1.0
  }

  // ---------------------------------------------------------------------------
  // Merchant prep time
  // ---------------------------------------------------------------------------

  /** Base prep time of a category, in seconds. */
  function BasePrepSeconds(category: string): int
    requires category in Categories
  {
    if category == "grocery" then 1500 else if category == "convenience" then 600 else 900
  }

  /** The delivery generator's base prep times are the order generator's, in seconds. */
  lemma BasePrepAgrees(category: string)
    requires category in Categories
    ensures BasePrepSeconds(category) == 60 * OrderGen.BasePrepMinutes(category)
  {
  }

  function PrepProduct(base: int, multiplier: real, drift: real, factor: real): real {
    (base as real) * multiplier * drift * factor
  }

  /**
   * `_generate_prep_time`: base time by the peak multiplier of the time of
   * day, the drift factor and the random factor, truncated, at least 300.
   */
  function PrepTime(category: string, tod: string, drift: real, factor: real): (t: int)
    requires category in Categories && tod in TimesOfDay
    ensures t >= 300
  {
    var x := Trunc(PrepProduct(BasePrepSeconds(category), OrderGen.PeakMultiplier(tod), 1.0 + drift, factor));
    if x < 300 then 300 else x
  }

  lemma PrepProductMonotone(base: int, m: real, d: real, d': real, f: real)
    requires base >= 0 && m >= 0.0 && f >= 0.0 && 0.0 <= d <= d'
    ensures 0.0 <= PrepProduct(base, m, d, f) <= PrepProduct(base, m, d', f)
  {
    var k := (base as real) * m;
    assert k >= 0.0;
    assert k * d * f <= k * d' * f by {
      assert k * d' * f - k * d * f == k * f * (d' - d);
      assert k * f >= 0.0;
    }
  }

  /** More drift never shortens the prep time. */
  lemma PrepTimeMonotone(category: string, tod: string, drift: real, drift': real, factor: real)
    requires category in Categories && tod in TimesOfDay
    requires -1.0 <= drift <= drift' && 0.8 <= factor <= 1.2
    ensures PrepTime(category, tod, drift, factor) <= PrepTime(category, tod, drift', factor)
  {
    var b, m := BasePrepSeconds(category), OrderGen.PeakMultiplier(tod);
    PrepProductMonotone(b, m, 1.0 + drift, 1.0 + drift', factor);
    TruncMonotone(PrepProduct(b, m, 1.0 + drift, factor), PrepProduct(b, m, 1.0 + drift', factor));
  }

  /** Without drift the prep time stays within the base time by the peak multiplier by 1.2. */
  lemma PrepTimeNoDrift(category: string, tod: string, factor: real)
    requires category in Categories && tod in TimesOfDay && 0.8 <= factor <= 1.2
    ensures (PrepTime(category, tod, 0.0, factor) as real)
              <= 1.2 * (BasePrepSeconds(category) as real) * OrderGen.PeakMultiplier(tod)
  {
    var b, m := BasePrepSeconds(category), OrderGen.PeakMultiplier(tod);
    var k := (b as real) * m;
    assert PrepProduct(b, m, 1.0, factor) == k * factor;
    assert k * factor <= k * 1.2 by { assert k * 1.2 - k * factor == k * (1.2 - factor); }
    assert 300.0 <= 1.2 * k;
  }

  // ---------------------------------------------------------------------------
  // Distance and travel
  // ---------------------------------------------------------------------------

  /** Distance range of a region, in miles; unlisted regions get `(0.5, 4.0)`. */
  function DistanceRange(region: string): (r: (real, real))
    ensures 0.0 < r.0 < r.1
  {
    if region == "SF" then (0.5, 3.0)
    else if region == "NYC" then (0.3, 2.5)
    else if region == "LA" then (1.0, 5.0)
    else if region == "Chicago" then (0.5, 3.5)
    else if region == "Boston" then (0.5, 3.0)
    else (0.5, 4.0)
  }

  /** `_generate_distance` for the draw `u` in `[0, 1]`: the point `u` of the way through the range. */
  function Distance(region: string, u: real): (d: real)
    requires 0.0 <= u <= 1.0
    ensures DistanceRange(region).0 <= d <= DistanceRange(region).1
  {
    var (lo, hi) := DistanceRange(region);
    assert (hi - lo) * u <= hi - lo by { assert (hi - lo) - (hi - lo) * u == (hi - lo) * (1.0 - u); }
    lo + (hi - lo) * u
  }

  /** Travel at an average 15 mph, truncated to whole seconds. */
  function TravelSeconds(distance: real): (s: int)
    requires distance >= 0.0
    ensures 0 <= s && s as real <= 240.0 * distance < s as real + 1.0
  {
    Trunc(distance / 15.0 * 3600.0)
  }

  // ---------------------------------------------------------------------------
  // Dasher wait
  // ---------------------------------------------------------------------------

  /** Five minutes, plus two for every order beyond the first. */
  function BatchWaitBase(numBatched: int): int {
    300 + (numBatched - 1) * 120
  }

  /** Waits are half again as long once the threshold is 4 or more. */
  function WaitMultiplier(threshold: int): real {
    if threshold >= 4 then 1.5 else 1.0
  }

  function ScaledWait(base: int, multiplier: real, factor: real): real {
    (base as real) * multiplier * factor
  }

  /** `_calculate_dasher_wait`: the single-order draw, or the batch wait scaled and truncated. */
  function DasherWait(threshold: int, batched: bool, numBatched: int, singleWait: int, factor: real): int {
    if !batched then singleWait
    else Trunc(ScaledWait(BatchWaitBase(numBatched), WaitMultiplier(threshold), factor))
  }

  lemma ScaledWaitMonotone(base: int, base': int, m: real, m': real, f: real)
    requires 0 <= base <= base' && 0.0 <= m <= m' && f >= 0.0
    ensures 0.0 <= ScaledWait(base, m, f) <= ScaledWait(base', m', f)
  {
    var b, b' := base as real, base' as real;
    assert b * m <= b' * m' by {
      assert b' * m' - b * m == b' * (m' - m) + m * (b' - b);
      assert b' * (m' - m) >= 0.0 && m * (b' - b) >= 0.0;
    }
    assert b * m * f <= b' * m' * f by {
      assert b' * m' * f - b * m * f == (b' * m' - b * m) * f;
    }
  }

  /**
   * A single order waits its drawn 60-180 s. A batch waits at least 270 s,
   * longer the more orders it holds, and longer again once the threshold is
   * raised to 4 or more.
   */
  lemma DasherWaitFacts(threshold: int, threshold': int, n: int, n': int, singleWait: int, factor: real)
    requires 60 <= singleWait <= 180 && 0.9 <= factor <= 1.3 && 1 <= n <= n'
    requires threshold < 4 || threshold' >= 4
    ensures 60 <= DasherWait(threshold, false, n, singleWait, factor) <= 180
    ensures 270 <= DasherWait(threshold, true, n, singleWait, factor)
    ensures DasherWait(threshold, true, n, singleWait, factor) <= DasherWait(threshold', true, n', singleWait, factor)
    ensures threshold >= 4 ==> DasherWait(threshold, true, n, singleWait, factor) >= 405
  {
    var m, m' := WaitMultiplier(threshold), WaitMultiplier(threshold');
    ScaledWaitMonotone(BatchWaitBase(n), BatchWaitBase(n'), m, m', factor);
    TruncMonotone(ScaledWait(BatchWaitBase(n), m, factor), ScaledWait(BatchWaitBase(n'), m', factor));
    var w := ScaledWait(BatchWaitBase(n), m, factor);
    ScaledWaitMonotone(300, BatchWaitBase(n), if threshold >= 4 then 1.5 else 1.0, m, factor);
    assert ScaledWait(300, if threshold >= 4 then 1.5 else 1.0, factor) >= (if threshold >= 4 then 405.0 else 270.0);
    TruncMonotone(if threshold >= 4 then 405.0 else 270.0, w);
  }

  // ---------------------------------------------------------------------------
  // Arrival and cancellation
  // ---------------------------------------------------------------------------

  /** `_calculate_actual_eta`: order time plus prep, wait, travel and noise. */
  function ActualEta(orderTime: int, prep: int, wait: int, distance: real, noise: int): int
    requires distance >= 0.0
  {
    orderTime + prep + wait + TravelSeconds(distance) + noise
  }

  /** The delay against the promise, in (fractional) minutes. */
  function DelayMinutes(actualEta: int, promisedEta: int): real {
    ((actualEta - promisedEta) as real) / 60.0
  }

  /** Cancellation probability by delay: 1% under 5 minutes, 3% under 10, 8% under 15, 15% from 15. */
  function CancelBase(delay: real): real {
    if delay < 5.0 then 0.01
    else if delay < 10.0 then 0.03
    else if delay < 15.0 then 0.08
    else 0.15
  }

  /** `_should_cancel`'s probability: half again as high for a batched order. */
  function CancelProbability(delay: real, batched: bool): real {
    if batched then CancelBase(delay) * 1.5 else CancelBase(delay)
  }

  /**
   * The probability lies in `[0.01, 0.225]`, never falls as the delay grows,
   * and batching raises it by half.
   */
  lemma CancelProbabilityFacts(delay: real, delay': real, batched: bool)
    requires delay <= delay'
    ensures 0.01 <= CancelProbability(delay, batched) <= 0.225
    ensures CancelProbability(delay, batched) <= CancelProbability(delay', batched)
    ensures CancelProbability(delay, true) == 1.5 * CancelProbability(delay, false)
    ensures CancelProbability(delay, false) <= CancelProbability(delay, true)
  {
  }

  // ---------------------------------------------------------------------------
  // One delivery
  // ---------------------------------------------------------------------------

  /** `dasher_0000` ... `dasher_0999`. */
  function DasherIds(): (ids: seq<string>)
    ensures |ids| == 1000
  {
    seq(1000, i requires 0 <= i < 1000 => "dasher_" + PadNum(i, 4))
  }

  /** The thousand dasher ids are distinct. */
  lemma DasherIdsDistinct()
    ensures Distinct(DasherIds())
  {
    var ids := DasherIds();
    forall i, j | 0 <= i < j < |ids| ensures ids[i] != ids[j] {
      if ids[i] == ids[j] {
        OrderGen.DropPrefix("dasher_", PadNum(i, 4), PadNum(j, 4));
        PadNumInjective(i, j, 4);
      }
    }
  }

  /** The prep time and peak multiplier of an order are known only for listed categories and times of day. */
  predicate KnownOrder(o: Order) {
    o.category in Categories && o.timeOfDay in TimesOfDay
  }

  /**
   * `generate_delivery` for an order that has `queueLen` orders in the queue
   * list passed with it.
   */
  function GenerateDelivery(p: Policy, o: Order, queueLen: nat, drift: real, d: DeliveryDraw): Delivery
    requires KnownOrder(o) && 0.0 <= d.distance <= 1.0
  {
    var batched := ShouldBatch(p, o.orderTime, queueLen);
    var numBatched := if batched then queueLen + 1 else 1;
    var prep := PrepTime(o.category, o.timeOfDay, drift, d.prepFactor);
    var distance := Distance(o.region, d.distance);
    var wait := DasherWait(p.threshold, batched, numBatched, d.singleWait, d.waitFactor);
    var eta := ActualEta(o.orderTime, prep, wait, distance, d.etaNoise);
    var canceled := d.cancelDraw < CancelProbability(DelayMinutes(eta, o.promisedEta), batched);
    Delivery(o.orderId, if canceled then None else Some(eta), wait, prep, distance, batched, canceled,
             if canceled then None else Some(eta),
             if canceled then None else Some(OrderGen.Pick(DasherIds(), d.dasher)))
  }

  /**
   * A delivery belongs to its order; it is batched exactly when the queue
   * passed with it reaches the threshold less one; a canceled delivery has no
   * arrival, no delivery time and no dasher, and an uncanceled one has all
   * three, delivered at its arrival; the prep time is at least 300 s; and the
   * wait and the cancellation follow the draws.
   */
  lemma GenerateDeliveryFacts(p: Policy, o: Order, queueLen: nat, drift: real, d: DeliveryDraw)
    requires KnownOrder(o) && ValidDraw(d)
    ensures var r := GenerateDelivery(p, o, queueLen, drift, d);
      && r.orderId == o.orderId
      && (r.batched <==> queueLen >= p.threshold - 1)
      && (r.canceled <==> r.actualEta.None?)
      && (r.canceled <==> r.deliveryTime.None?)
      && (r.canceled <==> r.dasherId.None?)
      && (!r.canceled ==> r.deliveryTime == r.actualEta && r.dasherId.value in DasherIds())
      && r.merchantPrepTime >= 300
      && DistanceRange(o.region).0 <= r.distance <= DistanceRange(o.region).1
      && (!r.batched ==> r.dasherWait == d.singleWait && 60 <= r.dasherWait <= 180)
      && (r.batched ==> r.dasherWait >= 270)
      && (d.cancelDraw < 0.01 ==> r.canceled)
      && (r.canceled ==> d.cancelDraw < 0.225)
  {
    var r := GenerateDelivery(p, o, queueLen, drift, d);
    var n := if r.batched then queueLen + 1 else 1;
    DasherWaitFacts(p.threshold, p.threshold, n, n, d.singleWait, d.waitFactor);
    var prep := PrepTime(o.category, o.timeOfDay, drift, d.prepFactor);
    var eta := ActualEta(o.orderTime, prep, r.dasherWait, r.distance, d.etaNoise);
    var delay := DelayMinutes(eta, o.promisedEta);
    CancelProbabilityFacts(delay, delay, r.batched);
  }

  // ---------------------------------------------------------------------------
  // Store queues
  // ---------------------------------------------------------------------------

  /** An order handed to `generate_delivery`, with the length of the queue list passed along. */
  datatype Release = Release(order: Order, queueLen: nat)

  /** `store_queues`: the stores in the order they were first seen, each with its waiting orders. */
  type Queues = seq<(string, seq<Order>)>

  /** The queue of a store; empty for a store not seen yet. */
  function QueueOf(qs: Queues, store: string): seq<Order> {
    if qs == [] then [] else if qs[0].0 == store then qs[0].1 else QueueOf(qs[1..], store)
  }

  /**
   * `store_queues[store] = q`: the store keeps its place when it is already
   * there and is added last otherwise; no other store's queue changes.
   */
  function SetQueue(qs: Queues, store: string, q: seq<Order>): (r: Queues)
    ensures QueueOf(r, store) == q
    ensures forall s :: s != store ==> QueueOf(r, s) == QueueOf(qs, s)
    ensures |qs| <= |r| <= |qs| + 1
    ensures forall i :: 0 <= i < |qs| ==> r[i].0 == qs[i].0
  {
    if qs == [] then [(store, q)]
    else if qs[0].0 == store then [(store, q)] + qs[1..]
    else [qs[0]] + SetQueue(qs[1..], store, q)
  }

  /** Every order waiting in some queue, store by store. */
  function Pending(qs: Queues): seq<Order> {
    if qs == [] then [] else qs[0].1 + Pending(qs[1..])
  }

  /** Replacing a store's queue swaps its orders in the pending orders. */
  lemma {:induction false} SetQueuePending(qs: Queues, store: string, q: seq<Order>)
    ensures multiset(Pending(SetQueue(qs, store, q))) + multiset(QueueOf(qs, store))
         == multiset(Pending(qs)) + multiset(q)
  {
    if qs != [] {
      var r := SetQueue(qs, store, q);
      if qs[0].0 == store {
        assert r[0].1 == q && r[1..] == qs[1..];
      } else {
        var rest := SetQueue(qs[1..], store, q);
        SetQueuePending(qs[1..], store, q);
        assert r == [qs[0]] + rest;
        assert Pending(r) == qs[0].1 + Pending(rest);
        assert QueueOf(qs, store) == QueueOf(qs[1..], store);
        assert Pending(qs) == qs[0].1 + Pending(qs[1..]);
        ShiftUnion(multiset(qs[0].1), multiset(Pending(rest)), multiset(QueueOf(qs[1..], store)),
                   multiset(Pending(qs[1..])), multiset(q));
      }
    }
  }

  lemma ShiftUnion<T>(a: multiset<T>, b: multiset<T>, c: multiset<T>, d: multiset<T>, e: multiset<T>)
    requires b + c == d + e
    ensures a + b + c == a + d + e
  {
    assert a + b + c == a + (b + c);
    assert a + d + e == a + (d + e);
  }

  lemma {:induction false} QueueInPending(qs: Queues, store: string)
    ensures multiset(QueueOf(qs, store)) <= multiset(Pending(qs))
  {
    if qs != [] && qs[0].0 != store {
      QueueInPending(qs[1..], store);
    }
  }

  /** `for queued_order in queue: generate_delivery(queued_order, ..., queue)`. */
  function BatchOf(q: seq<Order>): (r: seq<Release>)
    ensures |r| == |q|
  {
    seq(|q|, i requires 0 <= i < |q| => Release(q[i], |q|))
  }

  /** The orders of some releases, in order. */
  function OrdersOf(rel: seq<Release>): (os: seq<Order>)
    ensures |os| == |rel| && forall k :: 0 <= k < |rel| ==> os[k] == rel[k].order
  {
    seq(|rel|, k requires 0 <= k < |rel| => rel[k].order)
  }

  lemma OrdersOfAppend(a: seq<Release>, b: seq<Release>)
    ensures OrdersOf(a + b) == OrdersOf(a) + OrdersOf(b)
  {
  }

  lemma OrdersOfBatch(q: seq<Order>)
    ensures OrdersOf(BatchOf(q)) == q
  {
  }

  /**
   * One order of `generate_deliveries`: it joins its store's queue; the whole
   * queue leaves as a batch when the orders that were waiting reach the
   * threshold less one; otherwise the oldest leaves alone once it has waited
   * more than 900 s.
   */
  function Step(p: Policy, qs: Queues, o: Order): (Queues, seq<Release>) {
    var q := QueueOf(qs, o.storeId) + [o];
    if ShouldBatch(p, o.orderTime, |q| - 1) then (SetQueue(qs, o.storeId, []), BatchOf(q))
    else if o.orderTime - q[0].orderTime > 900 then (SetQueue(qs, o.storeId, q[1..]), [Release(q[0], 1)])
    else (SetQueue(qs, o.storeId, q), [])
  }

  /**
   * When the batch rule fires, the store's waiting orders and the new one
   * all leave, each with the queue length, and the queue is emptied.
   * Otherwise at most one order leaves: the oldest, with a queue of one, and
   * only when it has waited more than 900 s. Other stores are untouched.
   */
  lemma StepFacts(p: Policy, qs: Queues, o: Order)
    ensures var (qs', r) := Step(p, qs, o);
      var waiting := QueueOf(qs, o.storeId);
      && (forall s :: s != o.storeId ==> QueueOf(qs', s) == QueueOf(qs, s))
      && (ShouldBatch(p, o.orderTime, |waiting|) ==>
            OrdersOf(r) == waiting + [o] && QueueOf(qs', o.storeId) == []
            && forall k :: 0 <= k < |r| ==> r[k].queueLen == |waiting| + 1)
      && (!ShouldBatch(p, o.orderTime, |waiting|) ==>
            var oldest := (waiting + [o])[0];
            && |r| <= 1
            && (|r| == 1 <==> o.orderTime - oldest.orderTime > 900)
            && (|r| == 1 ==> r[0] == Release(oldest, 1) && QueueOf(qs', o.storeId) == (waiting + [o])[1..])
            && (|r| == 0 ==> QueueOf(qs', o.storeId) == waiting + [o]))
  {
    OrdersOfBatch(QueueOf(qs, o.storeId) + [o]);
  }

  /** A step loses no order and makes none up. */
  lemma StepConserves(p: Policy, qs: Queues, o: Order)
    ensures multiset(Pending(Step(p, qs, o).0)) + multiset(OrdersOf(Step(p, qs, o).1))
         == multiset(Pending(qs)) + multiset{o}
  {
    var w := QueueOf(qs, o.storeId);
    var q := w + [o];
    if ShouldBatch(p, o.orderTime, |q| - 1) {
      OrdersOfBatch(q);
      SwapQueue(qs, o.storeId, [], q, o);
    } else if o.orderTime - q[0].orderTime > 900 {
      assert OrdersOf([Release(q[0], 1)]) == [q[0]];
      assert multiset(q[1..]) + multiset([q[0]]) == multiset(q) by { assert q == [q[0]] + q[1..]; }
      SwapQueue(qs, o.storeId, q[1..], [q[0]], o);
    } else {
      assert OrdersOf([]) == [];
      SwapQueue(qs, o.storeId, q, [], o);
    }
  }

  lemma SwapQueue(qs: Queues, store: string, q: seq<Order>, released: seq<Order>, o: Order)
    requires multiset(q) + multiset(released) == multiset(QueueOf(qs, store)) + multiset{o}
    ensures multiset(Pending(SetQueue(qs, store, q))) + multiset(released) == multiset(Pending(qs)) + multiset{o}
  {
    SetQueuePending(qs, store, q);
    CancelUnion(multiset(Pending(SetQueue(qs, store, q))), multiset(QueueOf(qs, store)), multiset(Pending(qs)),
                multiset(q), multiset(released), multiset{o});
  }

  lemma MultisetSnoc<T>(s: seq<T>)
    requires s != []
    ensures multiset(s) == multiset(s[..|s| - 1]) + multiset{s[|s| - 1]}
  {
    assert s == s[..|s| - 1] + [s[|s| - 1]];
  }

  /** From `a + s == p + l` and `p + r == i` follows `a + (r + s) == i + l`. */
  lemma JoinUnion<T>(a: multiset<T>, s: multiset<T>, p: multiset<T>, l: multiset<T>, r: multiset<T>, i: multiset<T>)
    requires a + s == p + l && p + r == i
    ensures a + (r + s) == i + l
  {
    forall x ensures (a + (r + s))[x] == (i + l)[x] {
      assert (a + s)[x] == (p + l)[x];
      assert (p + r)[x] == i[x];
    }
  }

  /** From `a + w == p + q` and `q + r == w + o` follows `a + r == p + o`. */
  lemma CancelUnion<T>(a: multiset<T>, w: multiset<T>, p: multiset<T>, q: multiset<T>, r: multiset<T>, o: multiset<T>)
    requires a + w == p + q && q + r == w + o
    ensures a + r == p + o
  {
    forall x ensures (a + r)[x] == (p + o)[x] {
      assert (a + w)[x] == (p + q)[x];
      assert (q + r)[x] == (w + o)[x];
    }
  }

  /** The queues and the releases after the orders `os`, one step each. */
  function Run(p: Policy, os: seq<Order>): (Queues, seq<Release>) {
    if os == [] then ([], [])
    else
      var (qs, r) := Run(p, os[..|os| - 1]);
      var (qs', r') := Step(p, qs, os[|os| - 1]);
      (qs', r + r')
  }

  lemma RunSnoc(p: Policy, os: seq<Order>, i: nat)
    requires i < |os|
    ensures var (qs, r) := Run(p, os[..i]);
      var (qs', r') := Step(p, qs, os[i]);
      Run(p, os[..i + 1]) == (qs', r + r')
  {
    assert os[..i + 1][..i] == os[..i];
  }

  /** Every order run through the steps is either released or still waiting. */
  lemma {:induction false} RunConserves(p: Policy, os: seq<Order>)
    ensures multiset(Pending(Run(p, os).0)) + multiset(OrdersOf(Run(p, os).1)) == multiset(os)
  {
    if os != [] {
      var init, last := os[..|os| - 1], os[|os| - 1];
      RunConserves(p, init);
      var qs, r := Run(p, init).0, Run(p, init).1;
      var step := Step(p, qs, last);
      assert Run(p, os) == (step.0, r + step.1);
      StepConserves(p, qs, last);
      OrdersOfAppend(r, step.1);
      MultisetSnoc(os);
      JoinUnion(multiset(Pending(step.0)), multiset(OrdersOf(step.1)), multiset(Pending(qs)),
                multiset{last}, multiset(OrdersOf(r)), multiset(init));
    }
  }

  /** The longest a queue can be between steps: the threshold less one, and never negative. */
  function QueueCap(p: Policy): nat {
    if p.threshold >= 1 then p.threshold - 1 else 0
  }

  ghost predicate QueuesWithin(qs: Queues, cap: nat) {
    forall i :: 0 <= i < |qs| ==> |qs[i].1| <= cap
  }

  lemma {:induction false} QueueOfWithin(qs: Queues, cap: nat, store: string)
    requires QueuesWithin(qs, cap)
    ensures |QueueOf(qs, store)| <= cap
  {
    if qs != [] && qs[0].0 != store {
      QueueOfWithin(qs[1..], cap, store);
    }
  }

  lemma {:induction false} SetQueueWithin(qs: Queues, cap: nat, store: string, q: seq<Order>)
    requires QueuesWithin(qs, cap) && |q| <= cap
    ensures QueuesWithin(SetQueue(qs, store, q), cap)
  {
    if qs != [] && qs[0].0 != store {
      SetQueueWithin(qs[1..], cap, store, q);
    }
  }

  /** Between steps no queue holds more than the threshold less one orders. */
  lemma {:induction false} RunWithin(p: Policy, os: seq<Order>)
    ensures QueuesWithin(Run(p, os).0, QueueCap(p))
  {
    if os != [] {
      RunWithin(p, os[..|os| - 1]);
      var qs := Run(p, os[..|os| - 1]).0;
      var o := os[|os| - 1];
      var q := QueueOf(qs, o.storeId) + [o];
      QueueOfWithin(qs, QueueCap(p), o.storeId);
      if ShouldBatch(p, o.orderTime, |q| - 1) {
        SetQueueWithin(qs, QueueCap(p), o.storeId, []);
      } else if o.orderTime - q[0].orderTime > 900 {
        SetQueueWithin(qs, QueueCap(p), o.storeId, q[1..]);
      } else {
        SetQueueWithin(qs, QueueCap(p), o.storeId, q);
      }
    }
  }

  /** The closing loop: every queue left over leaves whole, store by store. */
  function Flush(qs: Queues): seq<Release> {
    if qs == [] then [] else BatchOf(qs[0].1) + Flush(qs[1..])
  }

  lemma {:induction false} FlushSnoc(qs: Queues, j: nat)
    requires j < |qs|
    ensures Flush(qs[..j + 1]) == Flush(qs[..j]) + BatchOf(qs[j].1)
  {
    if j > 0 {
      FlushSnoc(qs[1..], j - 1);
      assert qs[1..][..j] == qs[..j + 1][1..];
      assert qs[1..][..j - 1] == qs[..j][1..];
    }
  }

  /** The closing loop releases exactly the waiting orders. */
  lemma {:induction false} FlushOrders(qs: Queues)
    ensures OrdersOf(Flush(qs)) == Pending(qs)
  {
    if qs != [] {
      FlushOrders(qs[1..]);
      OrdersOfAppend(BatchOf(qs[0].1), Flush(qs[1..]));
      OrdersOfBatch(qs[0].1);
    }
  }

  /** Every release of the closing loop passes a queue no longer than the cap. */
  lemma {:induction false} FlushWithin(qs: Queues, cap: nat)
    requires QueuesWithin(qs, cap)
    ensures forall k :: 0 <= k < |Flush(qs)| ==> Flush(qs)[k].queueLen <= cap
  {
    if qs != [] {
      FlushWithin(qs[1..], cap);
      assert |qs[0].1| <= cap;
    }
  }

  /** `sort_values('order_time')`: ascending by order time. */
  function TimeKey(o: Order): seq<real> {
    [-(o.orderTime as real)]
  }

  function SortByTime(orders: seq<Order>): seq<Order> {
    SortDesc(orders, TimeKey)
  }

  /** The releases of `generate_deliveries`, in the order it generates their deliveries. */
  function Releases(p: Policy, orders: seq<Order>): seq<Release> {
    var (qs, r) := Run(p, SortByTime(orders));
    r + Flush(qs)
  }

  /**
   * Every order is released exactly once: the released orders are the input
   * orders, counted with multiplicity, so there are as many deliveries as
   * orders.
   */
  lemma ReleasesPermute(p: Policy, orders: seq<Order>)
    ensures multiset(OrdersOf(Releases(p, orders))) == multiset(orders)
    ensures |Releases(p, orders)| == |orders|
  {
    var sorted := SortByTime(orders);
    SortDescSorted(orders, TimeKey);
    var qs, r := Run(p, sorted).0, Run(p, sorted).1;
    assert Releases(p, orders) == r + Flush(qs);
    RunConserves(p, sorted);
    FlushOrders(qs);
    OrdersOfAppend(r, Flush(qs));
    assert multiset(OrdersOf(Releases(p, orders))) == multiset(orders);
    assert |OrdersOf(Releases(p, orders))| == |multiset(orders)|;
  }

  /** Orders still queued at the end leave in groups no longer than the threshold less one. */
  lemma FlushedWithin(p: Policy, orders: seq<Order>)
    ensures forall k :: |Run(p, SortByTime(orders)).1| <= k < |Releases(p, orders)| ==>
              Releases(p, orders)[k].queueLen <= QueueCap(p)
  {
    var sorted := SortByTime(orders);
    var qs, r := Run(p, sorted).0, Run(p, sorted).1;
    assert Releases(p, orders) == r + Flush(qs);
    RunWithin(p, sorted);
    FlushWithin(qs, QueueCap(p));
  }

  // ---------------------------------------------------------------------------
  // The generator
  // ---------------------------------------------------------------------------

  /** Orders whose prep time can be looked up. */
  ghost predicate AllKnown(os: seq<Order>) {
    forall o :: o in os ==> KnownOrder(o)
  }

  /** `ds` are the deliveries of the releases `rel`, the `k`-th made with draw `k`. */
  ghost predicate Emitted(ds: seq<Delivery>, rel: seq<Release>, p: Policy, drift: real, draws: nat -> DeliveryDraw)
  {
    && |ds| == |rel|
    && forall k :: 0 <= k < |rel| ==>
         && KnownOrder(rel[k].order) && 0.0 <= draws(k).distance <= 1.0
         && ds[k] == GenerateDelivery(p, rel[k].order, rel[k].queueLen, drift, draws(k))
  }

  /** The generator's batching policy, changed only by `SetBatchingThreshold`. */
  class DeliveryGenerator {
    var batchingThreshold: int
    var policyChangeDate: Option<int>

    /** Batch once 2 orders are ready; no policy change. */
    constructor()
      ensures batchingThreshold == 2 && policyChangeDate == None
    {
      batchingThreshold := 2;
      policyChangeDate := None;
    }

    /** `set_batching_threshold`. */
    method SetBatchingThreshold(threshold: int, changeDate: Option<int>)
      modifies this
      ensures batchingThreshold == threshold && policyChangeDate == changeDate
    {
      batchingThreshold := threshold;
      policyChangeDate := changeDate;
    }

    function CurrentPolicy(): Policy
      reads this
    {
      Policy(batchingThreshold, policyChangeDate)
    }

    /** Deliveries for the orders of `queue`, each passed the whole queue. */
    method EmitBatch(ds: seq<Delivery>, ghost rel: seq<Release>, q: seq<Order>, drift: real,
                     draws: nat -> DeliveryDraw) returns (ds': seq<Delivery>)
      requires Emitted(ds, rel, CurrentPolicy(), drift, draws) && AllKnown(q)
      requires forall k :: 0.0 <= draws(k).distance <= 1.0
      ensures Emitted(ds', rel + BatchOf(q), CurrentPolicy(), drift, draws)
    {
      var p := CurrentPolicy();
      ds' := ds;
      for j := 0 to |q|
        invariant Emitted(ds', rel + BatchOf(q)[..j], p, drift, draws)
      {
        ds' := ds' + [GenerateDelivery(p, q[j], |q|, drift, draws(|ds'|))];
        assert rel + BatchOf(q)[..j + 1] == rel + BatchOf(q)[..j] + [Release(q[j], |q|)];
      }
      assert BatchOf(q)[..|q|] == BatchOf(q);
    }

    /**
     * `generate_deliveries`: the orders in time order, each joining its
     * store's queue, then the queues left over; the `k`-th delivery is made
     * with draw `k`.
     */
    method GenerateDeliveries(orders: seq<Order>, drift: real, draws: nat -> DeliveryDraw)
      returns (deliveries: seq<Delivery>)
      requires AllKnown(orders)
      requires forall k :: ValidDraw(draws(k))
      ensures Emitted(deliveries, Releases(CurrentPolicy(), orders), CurrentPolicy(), drift, draws)
      ensures |deliveries| == |orders|
    {
      var p := CurrentPolicy();
      var sorted := SortByTime(orders);
      SortDescSorted(orders, TimeKey);
      assert AllKnown(sorted) by {
        forall o | o in sorted ensures KnownOrder(o) {
          assert o in multiset(sorted);
        }
      }
      var queues: Queues := [];
      ghost var released: seq<Release> := [];
      deliveries := [];
      for i := 0 to |sorted|
        invariant (queues, released) == Run(p, sorted[..i])
        invariant Emitted(deliveries, released, p, drift, draws)
        invariant AllKnown(Pending(queues))
      {
        RunSnoc(p, sorted, i);
        ghost var step := Step(p, queues, sorted[i]);
        queues, deliveries := ProcessOrder(queues, released, deliveries, sorted[i], drift, draws);
        released := released + step.1;
      }
      assert sorted[..|sorted|] == sorted;
      deliveries := FlushQueues(queues, released, deliveries, drift, draws);
      ReleasesPermute(p, orders);
    }

    /** One pass of the main loop: the order joins its store's queue, and what the policy releases is delivered. */
    method ProcessOrder(queues: Queues, ghost released: seq<Release>, deliveries: seq<Delivery>, o: Order,
                        drift: real, draws: nat -> DeliveryDraw) returns (queues': Queues, deliveries': seq<Delivery>)
      requires Emitted(deliveries, released, CurrentPolicy(), drift, draws)
      requires KnownOrder(o) && AllKnown(Pending(queues))
      requires forall k :: ValidDraw(draws(k))
      ensures queues' == Step(CurrentPolicy(), queues, o).0
      ensures Emitted(deliveries', released + Step(CurrentPolicy(), queues, o).1, CurrentPolicy(), drift, draws)
      ensures AllKnown(Pending(queues'))
    {
      var p := CurrentPolicy();
      StepKnown(p, queues, o);
      ghost var step := Step(p, queues, o);
      var q := QueueOf(queues, o.storeId) + [o];
      if ShouldBatch(p, o.orderTime, |q| - 1) {
        deliveries' := EmitBatch(deliveries, released, q, drift, draws);
        queues' := SetQueue(queues, o.storeId, []);
        assert step == (queues', BatchOf(q));
      } else if o.orderTime - q[0].orderTime > 900 {
        deliveries' := deliveries + [GenerateDelivery(p, q[0], 1, drift, draws(|deliveries|))];
        queues' := SetQueue(queues, o.storeId, q[1..]);
        assert step == (queues', [Release(q[0], 1)]);
      } else {
        deliveries' := deliveries;
        queues' := SetQueue(queues, o.storeId, q);
        assert step == (queues', []);
      }
    }

    /** The closing loop over `store_queues.items()`: each queue left over, delivered whole. */
    method FlushQueues(queues: Queues, ghost released: seq<Release>, deliveries: seq<Delivery>,
                       drift: real, draws: nat -> DeliveryDraw) returns (deliveries': seq<Delivery>)
      requires Emitted(deliveries, released, CurrentPolicy(), drift, draws)
      requires AllKnown(Pending(queues))
      requires forall k :: ValidDraw(draws(k))
      ensures Emitted(deliveries', released + Flush(queues), CurrentPolicy(), drift, draws)
    {
      deliveries' := deliveries;
      for j := 0 to |queues|
        invariant Emitted(deliveries', released + Flush(queues[..j]), CurrentPolicy(), drift, draws)
      {
        FlushSnoc(queues, j);
        assert AllKnown(queues[j].1) by {
          forall x | x in queues[j].1 ensures KnownOrder(x) {
            PendingHolds(queues, j, x);
          }
        }
        deliveries' := EmitBatch(deliveries', released + Flush(queues[..j]), queues[j].1, drift, draws);
        assert released + Flush(queues[..j]) + BatchOf(queues[j].1) == released + Flush(queues[..j + 1]);
      }
      assert queues[..|queues|] == queues;
    }
  }

  /** A step over orders with known prep times keeps only such orders waiting. */
  lemma StepKnown(p: Policy, qs: Queues, o: Order)
    requires KnownOrder(o) && AllKnown(Pending(qs))
    ensures AllKnown(QueueOf(qs, o.storeId) + [o])
    ensures AllKnown(Pending(Step(p, qs, o).0))
  {
    StepConserves(p, qs, o);
    QueueInPending(qs, o.storeId);
    var q := QueueOf(qs, o.storeId) + [o];
    forall x | x in q ensures KnownOrder(x) {
      if x != o { assert x in multiset(Pending(qs)); }
    }
    var after := Pending(Step(p, qs, o).0);
    forall x | x in after ensures KnownOrder(x) {
      assert x in multiset(after);
      assert x in multiset(Pending(qs)) + multiset{o};
      if x != o { assert x in multiset(Pending(qs)); }
    }
  }

  lemma {:induction false} PendingHolds(qs: Queues, j: nat, x: Order)
    requires j < |qs| && x in qs[j].1
    ensures x in Pending(qs)
  {
    if j > 0 {
      PendingHolds(qs[1..], j - 1, x);
    }
  }
}
