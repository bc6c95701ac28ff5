/**
 * The data-set orchestrator: inventory events for sampled stores and SKUs
 * every four hours, support tickets and ratings driven by what went wrong
 * with each order, each numbered by its own counter from 1. Random draws
 * and the merged order rows are parameters.
 */
module SyntheticGen {
  import opened Wrappers
  import opened Stats
  import opened Strings
  import opened Schema
  import OrderGen
  import ItemGen

  // ---------------------------------------------------------------------------
  // Counter ids
  // ---------------------------------------------------------------------------

  /** An id made of a prefix and a counter padded to eight digits. */
  function CounterId(prefix: string, n: nat): string {
    prefix + PadNum(n, 8)
  }

  /** Two counters give the same id only when they are equal. */
  lemma CounterIdInjective(prefix: string, n: nat, m: nat)
    requires CounterId(prefix, n) == CounterId(prefix, m)
    ensures n == m
  {
    OrderGen.DropPrefix(prefix, PadNum(n, 8), PadNum(m, 8));
    PadNumInjective(n, m, 8);
  }

  // ---------------------------------------------------------------------------
  // Inventory events
  // ---------------------------------------------------------------------------

  /** `(event_time - start_date).days`: whole days, rounded toward minus infinity. */
  function DaysElapsed(eventTime: int, start: int): (days: int)
    ensures days * 86400 <= eventTime - start < (days + 1) * 86400
  {
    (eventTime - start) / 86400
  }

  /** The day's in-stock probability: the base less the degradation so far, clamped to `[0.1, 1.0]`. */
  function DailyInStock(base: real, rate: real, days: int): (p: real)
    ensures 0.1 <= p <= 1.0
    ensures 0.1 <= base - rate * days as real <= 1.0 ==> p == base - rate * days as real
  {
    Max(0.1, Min(1.0, base - rate * days as real))
  }

  /** With a non-negative degradation rate the daily probability never rises. */
  lemma DailyInStockAntitone(base: real, rate: real, days: int, days': int)
    requires 0.0 <= rate && days <= days'
    ensures DailyInStock(base, rate, days') <= DailyInStock(base, rate, days)
  {
    var x, x' := base - rate * days as real, base - rate * days' as real;
    MulNonNegative(rate, days' as real - days as real);
    assert rate * days' as real - rate * days as real == rate * (days' as real - days as real);
    assert x' <= x;
    assert Min(1.0, x') <= Min(1.0, x);
  }

  /** One event's probability: the day's, times the noise draw, clamped to `[0, 1]`. */
  function EventInStock(daily: real, noise: real): (p: real)
    ensures 0.0 <= p <= 1.0
    ensures 0.0 <= daily * noise <= 1.0 ==> p == daily * noise
  {
    Max(0.0, Min(1.0, daily * noise))
  }

  /** `current_date.replace(hour=hour, minute=0, second=0)`. */
  function EventTime(current: int, hour: int): int {
    OrderGen.Midnight(current) + hour * 3600
  }

  /**
   * The fixed inputs of `generate_inventory_events`: the start, the base
   * probability, the degradation rate, the sampled stores and SKUs, and the
   * noise draw of each event by its position.
   */
  datatype InventoryRun = InventoryRun(
    start: int, base: real, rate: real, stores: seq<string>, skus: seq<string>, noise: nat -> real)

  /** The event at position `k` (counter `k + 1`) for a store and SKU at a time. */
  function Event(r: InventoryRun, t: int, store: string, sku: string, k: nat): (e: InventoryEvent)
    ensures e.eventId == CounterId("inv_", k + 1) && e.eventTime == t
    ensures e.storeId == store && e.skuId == sku
    ensures 0.0 <= e.inStockProb <= 1.0 && (e.oos <==> e.inStockProb < 0.3)
  {
    var p := EventInStock(DailyInStock(r.base, r.rate, DaysElapsed(t, r.start)), r.noise(k));
    InventoryEvent(CounterId("inv_", k + 1), sku, store, t, p, p < 0.3)
  }

  /** The events of one store at one time, one per SKU, from position `k0`. */
  function SkuEvents(r: InventoryRun, t: int, store: string, skus: seq<string>, k0: nat): (es: seq<InventoryEvent>)
    ensures |es| == |skus|
  {
    seq(|skus|, j requires 0 <= j < |skus| => Event(r, t, store, skus[j], k0 + j))
  }

  /** The events of the stores at one time, store by store, from position `k0`. */
  function StoreEvents(r: InventoryRun, t: int, stores: seq<string>, k0: nat): (es: seq<InventoryEvent>)
  {
    if |stores| == 0 then []
    else
      var init := StoreEvents(r, t, stores[..|stores| - 1], k0);
      init + SkuEvents(r, t, stores[|stores| - 1], r.skus, k0 + |init|)
  }

  /** The events of the first `h` of a day's six times (hours 0, 4, ..., 20), from position `k0`. */
  function HourEvents(r: InventoryRun, current: int, h: nat, k0: nat): (es: seq<InventoryEvent>)
  {
    if h == 0 then []
    else
      var init := HourEvents(r, current, h - 1, k0);
      init + StoreEvents(r, EventTime(current, 4 * (h - 1)), r.stores, k0 + |init|)
  }

  /** The events of the days from `current` until `end`, from position `k0`. */
  function EventsFrom(r: InventoryRun, current: int, end: int, k0: nat): (es: seq<InventoryEvent>)
    decreases end - current
  {
    if current >= end then []
    else
      var day := HourEvents(r, current, 6, k0);
      day + EventsFrom(r, current + 86400, end, k0 + |day|)
  }

  /** `generate_inventory_events`, its random samples given as `r.stores` and `r.skus`. */
  function InventoryEvents(r: InventoryRun, end: int): seq<InventoryEvent> {
    EventsFrom(r, r.start, end, 0)
  }

  /** What every inventory event satisfies. */
  ghost predicate EventOk(r: InventoryRun, e: InventoryEvent) {
    && 0.0 <= e.inStockProb <= 1.0
    && (e.oos <==> e.inStockProb < 0.3)
    && e.storeId in r.stores
    && e.skuId in r.skus
  }

  /** The events are numbered by position from `k0 + 1` and each satisfies the event facts. */
  ghost predicate Numbered(r: InventoryRun, es: seq<InventoryEvent>, k0: nat) {
    forall i :: 0 <= i < |es| ==> es[i].eventId == CounterId("inv_", k0 + i + 1) && EventOk(r, es[i])
  }

  lemma NumberedAppend(r: InventoryRun, a: seq<InventoryEvent>, b: seq<InventoryEvent>, k0: nat)
    requires Numbered(r, a, k0) && Numbered(r, b, k0 + |a|)
    ensures Numbered(r, a + b, k0)
  {
    forall i | 0 <= i < |a + b|
      ensures (a + b)[i].eventId == CounterId("inv_", k0 + i + 1) && EventOk(r, (a + b)[i])
    {
      if i >= |a| {
        assert (a + b)[i] == b[i - |a|];
      }
    }
  }

  lemma SkuEventsNumbered(r: InventoryRun, t: int, store: string, k0: nat)
    requires store in r.stores
    ensures Numbered(r, SkuEvents(r, t, store, r.skus, k0), k0)
  {
  }

  /** Every store of the list is one of the sampled stores. */
  ghost predicate AllSampled(r: InventoryRun, stores: seq<string>) {
    forall i :: 0 <= i < |stores| ==> stores[i] in r.stores
  }

  lemma {:induction false} StoreEventsNumbered(r: InventoryRun, t: int, stores: seq<string>, k0: nat)
    requires AllSampled(r, stores)
    ensures Numbered(r, StoreEvents(r, t, stores, k0), k0)
  {
    if |stores| > 0 {
      var n := |stores| - 1;
      var init := StoreEvents(r, t, stores[..n], k0);
      assert AllSampled(r, stores[..n]) && stores[n] in r.stores;
      StoreEventsNumbered(r, t, stores[..n], k0);
      SkuEventsNumbered(r, t, stores[n], k0 + |init|);
      NumberedAppend(r, init, SkuEvents(r, t, stores[n], r.skus, k0 + |init|), k0);
    }
  }

  lemma {:induction false} HourEventsNumbered(r: InventoryRun, current: int, h: nat, k0: nat)
    ensures Numbered(r, HourEvents(r, current, h, k0), k0)
  {
    if h > 0 {
      var init := HourEvents(r, current, h - 1, k0);
      var t := EventTime(current, 4 * (h - 1));
      var last := StoreEvents(r, t, r.stores, k0 + |init|);
      assert HourEvents(r, current, h, k0) == init + last;
      HourEventsNumbered(r, current, h - 1, k0);
      assert AllSampled(r, r.stores);
      StoreEventsNumbered(r, t, r.stores, k0 + |init|);
      NumberedAppend(r, init, last, k0);
    }
  }

  lemma {:induction false} EventsFromNumbered(r: InventoryRun, current: int, end: int, k0: nat)
    ensures Numbered(r, EventsFrom(r, current, end, k0), k0)
    decreases end - current
  {
    if current < end {
      var day := HourEvents(r, current, 6, k0);
      HourEventsNumbered(r, current, 6, k0);
      EventsFromNumbered(r, current + 86400, end, k0 + |day|);
      NumberedAppend(r, day, EventsFrom(r, current + 86400, end, k0 + |day|), k0);
    }
  }

  /**
   * Every inventory event has a probability in `[0, 1]`, is out of stock
   * exactly below 0.3, names a sampled store and SKU, and carries the id
   * `inv_` of its 1-based position, so no two events share an id.
   */
  lemma InventoryEventsFacts(r: InventoryRun, end: int)
    ensures var es := InventoryEvents(r, end);
      && (forall i :: 0 <= i < |es| ==> es[i].eventId == CounterId("inv_", i + 1) && EventOk(r, es[i]))
      && (forall i, j :: 0 <= i < j < |es| ==> es[i].eventId != es[j].eventId)
  {
    EventsFromNumbered(r, r.start, end, 0);
    NumberedEventsDistinct(r, InventoryEvents(r, end));
  }

  lemma NumberedEventsDistinct(r: InventoryRun, es: seq<InventoryEvent>)
    requires Numbered(r, es, 0)
    ensures forall i, j :: 0 <= i < j < |es| ==> es[i].eventId != es[j].eventId
  {
    forall i, j | 0 <= i < j < |es|
      ensures es[i].eventId != es[j].eventId
    {
      if es[i].eventId == es[j].eventId {
        CounterIdInjective("inv_", i + 1, j + 1);
      }
    }
  }

  lemma MulStep(a: nat, m: nat)
    ensures (a + 1) * m == a * m + m
  {
  }

  /** Each store at one time contributes one event per sampled SKU. */
  lemma {:induction false} StoreEventsCount(r: InventoryRun, t: int, stores: seq<string>, k0: nat)
    ensures |StoreEvents(r, t, stores, k0)| == |stores| * |r.skus|
  {
    if |stores| > 0 {
      var n := |stores| - 1;
      var init := StoreEvents(r, t, stores[..n], k0);
      StoreEventsCount(r, t, stores[..n], k0);
      assert |StoreEvents(r, t, stores, k0)| == |init| + |r.skus|;
      MulStep(n, |r.skus|);
    }
  }

  /** The events at one time: one per sampled store and SKU. */
  function PerTime(r: InventoryRun): nat {
    |r.stores| * |r.skus|
  }

  lemma {:induction false} HourEventsCount(r: InventoryRun, current: int, h: nat, k0: nat)
    ensures |HourEvents(r, current, h, k0)| == h * PerTime(r)
  {
    if h > 0 {
      var init := HourEvents(r, current, h - 1, k0);
      var t := EventTime(current, 4 * (h - 1));
      HourEventsCount(r, current, h - 1, k0);
      StoreEventsCount(r, t, r.stores, k0 + |init|);
      assert |HourEvents(r, current, h, k0)| == |init| + PerTime(r);
      MulStep(h - 1, PerTime(r));
    }
  }

  /** The number of days the loop visits from `current` before reaching `end`. */
  function DaysUntil(current: int, end: int): nat
    decreases end - current
  {
    if current >= end then 0 else 1 + DaysUntil(current + 86400, end)
  }

  /** Six times a day, every sampled store with every sampled SKU. */
  lemma {:induction false} EventsFromCount(r: InventoryRun, current: int, end: int, k0: nat)
    ensures |EventsFrom(r, current, end, k0)| == DaysUntil(current, end) * (6 * PerTime(r))
    decreases end - current
  {
    if current < end {
      var day := HourEvents(r, current, 6, k0);
      HourEventsCount(r, current, 6, k0);
      EventsFromCount(r, current + 86400, end, k0 + |day|);
      assert |EventsFrom(r, current, end, k0)| == |day| + |EventsFrom(r, current + 86400, end, k0 + |day|)|;
      MulStep(DaysUntil(current + 86400, end), 6 * PerTime(r));
    }
  }

  /** The innermost loop: one event per SKU for one store at one time. */
  method EmitSkus(r: InventoryRun, t: int, store: string, events: seq<InventoryEvent>, counter: nat)
    returns (events': seq<InventoryEvent>, counter': nat)
    requires counter == |events| + 1
    ensures events' == events + SkuEvents(r, t, store, r.skus, |events|)
    ensures counter' == |events'| + 1
  {
    ghost var row := SkuEvents(r, t, store, r.skus, |events|);
    events', counter' := events, counter;
    for j := 0 to |r.skus|
      invariant events' == events + row[..j]
      invariant counter' == |events'| + 1
    {
      var p := EventInStock(DailyInStock(r.base, r.rate, DaysElapsed(t, r.start)), r.noise(counter' - 1));
      var e := InventoryEvent(CounterId("inv_", counter'), r.skus[j], store, t, p, p < 0.3);
      assert e == row[j];
      OrderGen.PrefixStep(row, j, e);
      events' := events' + [e];
      counter' := counter' + 1;
    }
    assert row[..|r.skus|] == row;
  }

  /** The store loop at one time. */
  method EmitStores(r: InventoryRun, t: int, events: seq<InventoryEvent>, counter: nat)
    returns (events': seq<InventoryEvent>, counter': nat)
    requires counter == |events| + 1
    ensures events' == events + StoreEvents(r, t, r.stores, |events|)
    ensures counter' == |events'| + 1
  {
    events', counter' := events, counter;
    for i := 0 to |r.stores|
      invariant events' == events + StoreEvents(r, t, r.stores[..i], |events|)
      invariant counter' == |events'| + 1
    {
      ghost var before := events';
      events', counter' := EmitSkus(r, t, r.stores[i], events', counter');
      assert r.stores[..i + 1][..i] == r.stores[..i];
      assert events' == events + StoreEvents(r, t, r.stores[..i + 1], |events|) by {
        var prefix := StoreEvents(r, t, r.stores[..i], |events|);
        assert |before| == |events| + |prefix|;
      }
    }
    assert r.stores[..|r.stores|] == r.stores;
  }

  /** One day: the hours 0, 4, ..., 20. */
  method EmitDay(r: InventoryRun, current: int, events: seq<InventoryEvent>, counter: nat)
    returns (events': seq<InventoryEvent>, counter': nat)
    requires counter == |events| + 1
    ensures events' == events + HourEvents(r, current, 6, |events|)
    ensures counter' == |events'| + 1
  {
    events', counter' := events, counter;
    for h := 0 to 6
      invariant events' == events + HourEvents(r, current, h, |events|)
      invariant counter' == |events'| + 1
    {
      var eventTime := EventTime(current, 4 * h);
      ghost var before := events';
      events', counter' := EmitStores(r, eventTime, events', counter');
      assert events' == events + HourEvents(r, current, h + 1, |events|) by {
        var prefix := HourEvents(r, current, h, |events|);
        assert |before| == |events| + |prefix|;
      }
    }
  }

  /** `generate_inventory_events`: a day at a time until the end, the counter starting at 1. */
  method GenerateInventoryEvents(r: InventoryRun, end: int) returns (events: seq<InventoryEvent>)
    ensures events == InventoryEvents(r, end)
  {
    events := [];
    var counter := 1;
    var current := r.start;
    while current < end
      invariant counter == |events| + 1
      invariant events + EventsFrom(r, current, end, |events|) == InventoryEvents(r, end)
      decreases end - current
    {
      ghost var before := events;
      ghost var day := HourEvents(r, current, 6, |before|);
      ghost var rest := EventsFrom(r, current + 86400, end, |before| + |day|);
      events, counter := EmitDay(r, current, events, counter);
      assert EventsFrom(r, current, end, |before|) == day + rest;
      assert events + rest == before + (day + rest);
      current := current + 86400;
    }
  }

  // ---------------------------------------------------------------------------
  // Merged order rows
  // ---------------------------------------------------------------------------

  /**
   * A flag column after the left merges: `None` where the joined table had
   * no row for the order (pandas NaN).
   */
  type Flag = Option<bool>

  /** Python truthiness of a flag cell: NaN counts as true. */
  predicate Truthy(f: Flag) {
    f.None? || f.value
  }

  /** One row of orders merged with deliveries and with the per-order item flags. */
  datatype MergedRow = MergedRow(
    orderId: string,
    orderTime: int,
    promisedEta: Option<int>,
    actualEta: Option<int>,
    deliveryTime: Option<int>,
    canceled: Flag,
    missing: Flag,
    substituted: Flag)

  /** The delay in minutes when both the actual and the promised ETA are present. */
  function Delay(row: MergedRow): Option<real> {
    if row.actualEta.Some? && row.promisedEta.Some? then
      Some(((row.actualEta.value - row.promisedEta.value) as real) / 60.0)
    else None
  }

  // ---------------------------------------------------------------------------
  // Support tickets
  // ---------------------------------------------------------------------------

  /** The late-delivery part of the ticket probability: 0.15 beyond 10 minutes, 0.08 beyond 5. */
  function LateTicketTerm(row: MergedRow): (p: real)
    ensures p == 0.0 || p == 0.08 || p == 0.15
  {
    match Delay(row)
    case None => 0.0
    case Some(d) => if d > 10.0 then 0.15 else if d > 5.0 then 0.08 else 0.0
  }

  /** The ticket probability: late term, plus 0.25 for a missing item and 0.10 for a substitution; 1 if canceled. */
  function TicketProbability(row: MergedRow): (p: real)
    ensures Truthy(row.canceled) ==> p == 1.0
    ensures !Truthy(row.canceled) ==> 0.0 <= p <= 0.5
  {
    var p := LateTicketTerm(row)
      + (if Truthy(row.missing) then 0.25 else 0.0)
      + (if Truthy(row.substituted) then 0.10 else 0.0);
    if Truthy(row.canceled) then 1.0 else p
  }

  /**
   * A canceled order is certain to get a ticket; an order on time (or
   * without a delay), with nothing missing or substituted, never does; each
   * issue adds its share.
   */
  lemma TicketProbabilityFacts(row: MergedRow, u: real)
    requires 0.0 <= u < 1.0
    ensures Truthy(row.canceled) ==> u < TicketProbability(row)
    ensures !Truthy(row.canceled) && LateTicketTerm(row) == 0.0 && !Truthy(row.missing) && !Truthy(row.substituted)
      ==> !(u < TicketProbability(row))
    ensures !Truthy(row.canceled) && Truthy(row.missing) ==> TicketProbability(row) >= 0.25
    ensures !Truthy(row.canceled) && Truthy(row.substituted) ==> TicketProbability(row) >= 0.10
    ensures !Truthy(row.canceled) && LateTicketTerm(row) == 0.15 ==> TicketProbability(row) >= 0.15
  {
  }

  /** The issue type: `late` for a cancellation, then `missing_item`, then `wrong_item`, else `late`. */
  function IssueType(row: MergedRow): string {
    if Truthy(row.canceled) then "late"
    else if Truthy(row.missing) then "missing_item"
    else if Truthy(row.substituted) then "wrong_item"
    else "late"
  }

  /**
   * The issue type is one of the schema's, never `other`; it is
   * `missing_item` exactly for an uncanceled order with a missing item,
   * `wrong_item` exactly for an uncanceled order with a substitution and
   * nothing missing, and `late` in every other case.
   */
  lemma IssueTypePrecedence(row: MergedRow)
    ensures var t := IssueType(row);
      && t in IssueTypes && t != "other"
      && (t == "missing_item" <==> !Truthy(row.canceled) && Truthy(row.missing))
      && (t == "wrong_item" <==> !Truthy(row.canceled) && !Truthy(row.missing) && Truthy(row.substituted))
      && (t == "late" <==> Truthy(row.canceled) || (!Truthy(row.missing) && !Truthy(row.substituted)))
  {
  }

  /** Ticket time: two hours after the order without a delivery, else 30 to 180 minutes after delivery. */
  function TicketTime(row: MergedRow, minutes: nat): (t: int)
    ensures row.deliveryTime.None? ==> t == row.orderTime + 7200
    ensures row.deliveryTime.Some? ==> row.deliveryTime.value + 1800 <= t <= row.deliveryTime.value + 10800
  {
    match row.deliveryTime
    case None => row.orderTime + 7200
    case Some(d) => d + ItemGen.RandInt(30, 180, minutes) * 60
  }

  /** The draws of one row: the uniform ticket draw and the minutes draw. */
  datatype TicketDraw = TicketDraw(u: real, minutes: nat)

  /** The ticket numbered `counter` for a row. */
  function Ticket(row: MergedRow, counter: nat, minutes: nat): (t: SupportEvent)
    ensures t.ticketId == CounterId("ticket_", counter) && t.orderId == row.orderId && t.issueType == IssueType(row)
  {
    SupportEvent(CounterId("ticket_", counter), row.orderId, IssueType(row), TicketTime(row, minutes))
  }

  /** The tickets of the rows, numbered `ticket_00000001` onwards. */
  function Tickets(rows: seq<MergedRow>, draws: nat -> TicketDraw): (ts: seq<SupportEvent>)
    ensures |ts| <= |rows|
  {
    if |rows| == 0 then []
    else
      var n := |rows| - 1;
      var before := Tickets(rows[..n], draws);
      var row := rows[n];
      if draws(n).u < TicketProbability(row) then
        before + [Ticket(row, |before| + 1, draws(n).minutes)]
      else before
  }

  /** Every ticket is for one of the rows, with that row's issue type. */
  ghost predicate TicketOf(t: SupportEvent, rows: seq<MergedRow>) {
    exists j :: 0 <= j < |rows| && t.orderId == rows[j].orderId && t.issueType == IssueType(rows[j])
  }

  lemma TicketOfPrefix(t: SupportEvent, rows: seq<MergedRow>, n: nat)
    requires n <= |rows| && TicketOf(t, rows[..n])
    ensures TicketOf(t, rows)
  {
    var j :| 0 <= j < |rows[..n]| && t.orderId == rows[..n][j].orderId && t.issueType == IssueType(rows[..n][j]);
    assert rows[..n][j] == rows[j];
  }

  /** Tickets carry the id of their 1-based position and are each for one of the rows with that row's issue type. */
  ghost predicate TicketsNumberedBy(ts: seq<SupportEvent>, rows: seq<MergedRow>) {
    forall i :: 0 <= i < |ts| ==> ts[i].ticketId == CounterId("ticket_", i + 1) && TicketOf(ts[i], rows)
  }

  /** The last row adds its ticket, or nothing. */
  lemma TicketsStep(rows: seq<MergedRow>, draws: nat -> TicketDraw, n: nat, before: seq<SupportEvent>, after: seq<SupportEvent>)
    requires n + 1 == |rows| && before == Tickets(rows[..n], draws) && after == Tickets(rows, draws)
    ensures |before| <= |after| <= |before| + 1
    ensures forall i :: 0 <= i < |before| ==> after[i] == before[i]
    ensures |after| > |before| ==> after[|before|] == Ticket(rows[n], |before| + 1, draws(n).minutes)
  {
    if draws(n).u < TicketProbability(rows[n]) {
      assert after == before + [Ticket(rows[n], |before| + 1, draws(n).minutes)];
    } else {
      assert after == before;
    }
  }

  lemma TicketForOf(rows: seq<MergedRow>, n: nat, counter: nat, minutes: nat)
    requires n < |rows|
    ensures TicketOf(Ticket(rows[n], counter, minutes), rows)
  {
    var t := Ticket(rows[n], counter, minutes);
    assert t.orderId == rows[n].orderId && t.issueType == IssueType(rows[n]);
  }

  /** Numbering is kept when one ticket for one of the rows is added at the end. */
  lemma TicketsNumberedExtend(before: seq<SupportEvent>, after: seq<SupportEvent>, rows: seq<MergedRow>, n: nat, x: SupportEvent)
    requires n <= |rows| && TicketsNumberedBy(before, rows[..n])
    requires |before| <= |after| <= |before| + 1
    requires forall i :: 0 <= i < |before| ==> after[i] == before[i]
    requires |after| > |before| ==> after[|before|] == x
    requires x.ticketId == CounterId("ticket_", |before| + 1) && TicketOf(x, rows)
    ensures TicketsNumberedBy(after, rows)
  {
    forall i | 0 <= i < |after|
      ensures after[i].ticketId == CounterId("ticket_", i + 1) && TicketOf(after[i], rows)
    {
      if i < |before| {
        assert before[i].ticketId == CounterId("ticket_", i + 1) && TicketOf(before[i], rows[..n]);
        TicketOfPrefix(before[i], rows, n);
      }
    }
  }

  lemma {:induction false} TicketsNumbered(rows: seq<MergedRow>, draws: nat -> TicketDraw)
    ensures TicketsNumberedBy(Tickets(rows, draws), rows)
  {
    if |rows| > 0 {
      var n := |rows| - 1;
      TicketsNumbered(rows[..n], draws);
      var before := Tickets(rows[..n], draws);
      TicketsStep(rows, draws, n, before, Tickets(rows, draws));
      TicketForOf(rows, n, |before| + 1, draws(n).minutes);
      TicketsNumberedExtend(before, Tickets(rows, draws), rows, n, Ticket(rows[n], |before| + 1, draws(n).minutes));
    }
  }

  /** Numbered tickets have distinct ids. */
  lemma NumberedTicketsDistinct(ts: seq<SupportEvent>, rows: seq<MergedRow>)
    requires TicketsNumberedBy(ts, rows)
    ensures forall i, j :: 0 <= i < j < |ts| ==> ts[i].ticketId != ts[j].ticketId
  {
    forall i, j | 0 <= i < j < |ts|
      ensures ts[i].ticketId != ts[j].ticketId
    {
      if ts[i].ticketId == ts[j].ticketId {
        CounterIdInjective("ticket_", i + 1, j + 1);
      }
    }
  }

  /** Ticket ids are distinct, and every ticket is for one of the rows with that row's issue type. */
  lemma TicketsFacts(rows: seq<MergedRow>, draws: nat -> TicketDraw)
    ensures var ts := Tickets(rows, draws);
      && (forall i :: 0 <= i < |ts| ==> TicketOf(ts[i], rows))
      && (forall i, j :: 0 <= i < j < |ts| ==> ts[i].ticketId != ts[j].ticketId)
  {
    TicketsNumbered(rows, draws);
    NumberedTicketsDistinct(Tickets(rows, draws), rows);
  }

  /** A canceled order whose draw is below 1 gets a `late` ticket. */
  lemma CanceledGetsTicket(rows: seq<MergedRow>, draws: nat -> TicketDraw)
    requires |rows| > 0 && Truthy(rows[|rows| - 1].canceled)
    requires 0.0 <= draws(|rows| - 1).u < 1.0
    ensures var ts := Tickets(rows, draws);
      && |ts| == |Tickets(rows[..|rows| - 1], draws)| + 1
      && ts[|ts| - 1].orderId == rows[|rows| - 1].orderId
      && ts[|ts| - 1].issueType == "late"
  {
    TicketProbabilityFacts(rows[|rows| - 1], draws(|rows| - 1).u);
  }

  /** The tickets of one more row. */
  lemma TicketsSnoc(rows: seq<MergedRow>, i: nat, draws: nat -> TicketDraw)
    requires i < |rows|
    ensures var before := Tickets(rows[..i], draws);
      Tickets(rows[..i + 1], draws)
        == if draws(i).u < TicketProbability(rows[i]) then before + [Ticket(rows[i], |before| + 1, draws(i).minutes)] else before
  {
    assert rows[..i + 1][..i] == rows[..i];
  }

  /** `generate_support_events` over the merged rows: a ticket when the draw falls below the probability. */
  method GenerateSupportEvents(rows: seq<MergedRow>, draws: nat -> TicketDraw) returns (events: seq<SupportEvent>)
    ensures events == Tickets(rows, draws)
  {
    events := [];
    var counter := 1;
    for i := 0 to |rows|
      invariant events == Tickets(rows[..i], draws)
      invariant counter == |events| + 1
    {
      var row := rows[i];
      TicketsSnoc(rows, i, draws);
      var d := draws(i);
      if d.u < TicketProbability(row) {
        events := events + [Ticket(row, counter, d.minutes)];
        counter := counter + 1;
      }
    }
    assert rows[..|rows|] == rows;
  }

  // ---------------------------------------------------------------------------
  // Ratings
  // ---------------------------------------------------------------------------

  /** The stars lost to lateness: 2 beyond 15 minutes, 1 beyond 5. */
  function LatePenalty(row: MergedRow): (n: int)
    ensures 0 <= n <= 2
  {
    match Delay(row)
    case None => 0
    case Some(d) => if d > 15.0 then 2 else if d > 5.0 then 1 else 0
  }

  /** The stars before truncation: 5, less the late penalty, 1 for a missing item, 0.5 for a substitution; 1 if canceled. */
  function RawStars(row: MergedRow): real {
    var s := 5.0 - LatePenalty(row) as real
      - (if Truthy(row.missing) then 1.0 else 0.0)
      - (if Truthy(row.substituted) then 0.5 else 0.0);
    if Truthy(row.canceled) then 1.0 else s
  }

  /** `max(1, min(5, int(stars)))`. */
  function Stars(row: MergedRow): (n: int)
    ensures 1 <= n <= 5
  {
    var t := Trunc(RawStars(row));
    if t > 5 then 5 else if t < 1 then 1 else t
  }

  /**
   * A canceled order rates 1 star; otherwise each issue costs whole stars,
   * the half star of a substitution included, and the clamp never binds.
   */
  lemma StarsFacts(row: MergedRow)
    ensures Truthy(row.canceled) ==> Stars(row) == 1
    ensures !Truthy(row.canceled) ==>
      Stars(row) == 5 - LatePenalty(row) - (if Truthy(row.missing) then 1 else 0) - (if Truthy(row.substituted) then 1 else 0)
  {
    if !Truthy(row.canceled) {
      var whole := 5 - LatePenalty(row) - (if Truthy(row.missing) then 1 else 0);
      var s := RawStars(row);
      if Truthy(row.substituted) {
        assert s == whole as real - 0.5;
        assert Trunc(s) == whole - 1;
      } else {
        assert s == whole as real;
        assert Trunc(s) == whole;
      }
    }
  }

  /** An issue-free order rates 5 stars, and an extra issue never raises the rating. */
  lemma StarsMonotone(row: MergedRow, worse: MergedRow)
    requires !Truthy(worse.canceled) ==> !Truthy(row.canceled)
    requires LatePenalty(row) <= LatePenalty(worse)
    requires Truthy(row.missing) ==> Truthy(worse.missing)
    requires Truthy(row.substituted) ==> Truthy(worse.substituted)
    ensures Stars(worse) <= Stars(row)
  {
    StarsFacts(row);
    StarsFacts(worse);
  }

  /** The free text for a rating when the text draw falls below 0.2. */
  function FreeText(stars: int, u: real): (t: Option<string>)
    ensures t.Some? <==> u < 0.2
    ensures t.Some? && stars <= 2 ==> t.value == "Order was late and items were missing"
    ensures t.Some? && stars == 3 ==> t.value == "Order was okay but could be better"
    ensures t.Some? && stars >= 4 ==> t.value == "Great service, fast delivery!"
  {
    if u < 0.2 then
      Some(if stars <= 2 then "Order was late and items were missing"
           else if stars == 3 then "Order was okay but could be better"
           else "Great service, fast delivery!")
    else None
  }

  /** Rating time: 2 to 24 hours after the order without a delivery, else 1 to 24 hours after delivery. */
  function RatingTime(row: MergedRow, hours: nat): (t: int)
    ensures row.deliveryTime.None? ==> row.orderTime + 7200 <= t <= row.orderTime + 86400
    ensures row.deliveryTime.Some? ==> row.deliveryTime.value + 3600 <= t <= row.deliveryTime.value + 86400
  {
    match row.deliveryTime
    case None => row.orderTime + ItemGen.RandInt(2, 24, hours) * 3600
    case Some(d) => d + ItemGen.RandInt(1, 24, hours) * 3600
  }

  /** The draws of one row: whether it is rated, the hours, and whether it gets free text. */
  datatype RatingDraw = RatingDraw(u: real, hours: nat, text: real)

  /** Three in ten orders are rated. */
  const RatingRate: real := 0.3

  /** The rating numbered `counter` for a row. */
  function RatingFor(row: MergedRow, counter: nat, d: RatingDraw): (r: Rating)
    ensures r.ratingId == CounterId("rating_", counter) && r.orderId == row.orderId && r.stars == Stars(row)
  {
    var stars := Stars(row);
    Rating(CounterId("rating_", counter), row.orderId, stars, FreeText(stars, d.text), RatingTime(row, d.hours))
  }

  /** The ratings of the rows, numbered `rating_00000001` onwards. */
  function Ratings(rows: seq<MergedRow>, draws: nat -> RatingDraw): (rs: seq<Rating>)
    ensures |rs| <= |rows|
  {
    if |rows| == 0 then []
    else
      var n := |rows| - 1;
      var before := Ratings(rows[..n], draws);
      var row := rows[n];
      var d := draws(n);
      if d.u < RatingRate then
        before + [RatingFor(row, |before| + 1, d)]
      else before
  }

  /** Every rating is one of a row's, with that row's stars. */
  ghost predicate RatingOf(r: Rating, rows: seq<MergedRow>) {
    exists j :: 0 <= j < |rows| && r.orderId == rows[j].orderId && r.stars == Stars(rows[j])
  }

  lemma RatingOfPrefix(r: Rating, rows: seq<MergedRow>, n: nat)
    requires n <= |rows| && RatingOf(r, rows[..n])
    ensures RatingOf(r, rows)
  {
    var j :| 0 <= j < |rows[..n]| && r.orderId == rows[..n][j].orderId && r.stars == Stars(rows[..n][j]);
    assert rows[..n][j] == rows[j];
  }

  lemma RatingForOf(rows: seq<MergedRow>, n: nat, counter: nat, d: RatingDraw)
    requires n < |rows|
    ensures RatingOf(RatingFor(rows[n], counter, d), rows)
  {
    var r := RatingFor(rows[n], counter, d);
    assert r.orderId == rows[n].orderId && r.stars == Stars(rows[n]);
  }

  /** Ratings carry the id of their 1-based position and are each for one of the rows with that row's stars. */
  ghost predicate RatingsNumberedBy(rs: seq<Rating>, rows: seq<MergedRow>) {
    forall i :: 0 <= i < |rs| ==> rs[i].ratingId == CounterId("rating_", i + 1) && RatingOf(rs[i], rows)
  }

  /** The last row adds its rating, or nothing. */
  lemma RatingsStep(rows: seq<MergedRow>, draws: nat -> RatingDraw, n: nat, before: seq<Rating>, after: seq<Rating>)
    requires n + 1 == |rows| && before == Ratings(rows[..n], draws) && after == Ratings(rows, draws)
    ensures |before| <= |after| <= |before| + 1
    ensures forall i :: 0 <= i < |before| ==> after[i] == before[i]
    ensures |after| > |before| ==> after[|before|] == RatingFor(rows[n], |before| + 1, draws(n))
  {
    if draws(n).u < RatingRate {
      assert after == before + [RatingFor(rows[n], |before| + 1, draws(n))];
    } else {
      assert after == before;
    }
  }

  /** Numbering is kept when one rating for one of the rows is added at the end. */
  lemma RatingsNumberedExtend(before: seq<Rating>, after: seq<Rating>, rows: seq<MergedRow>, n: nat, x: Rating)
    requires n <= |rows| && RatingsNumberedBy(before, rows[..n])
    requires |before| <= |after| <= |before| + 1
    requires forall i :: 0 <= i < |before| ==> after[i] == before[i]
    requires |after| > |before| ==> after[|before|] == x
    requires x.ratingId == CounterId("rating_", |before| + 1) && RatingOf(x, rows)
    ensures RatingsNumberedBy(after, rows)
  {
    forall i | 0 <= i < |after|
      ensures after[i].ratingId == CounterId("rating_", i + 1) && RatingOf(after[i], rows)
    {
      if i < |before| {
        assert before[i].ratingId == CounterId("rating_", i + 1) && RatingOf(before[i], rows[..n]);
        RatingOfPrefix(before[i], rows, n);
      }
    }
  }

  lemma {:induction false} RatingsNumbered(rows: seq<MergedRow>, draws: nat -> RatingDraw)
    ensures RatingsNumberedBy(Ratings(rows, draws), rows)
  {
    if |rows| > 0 {
      var n := |rows| - 1;
      RatingsNumbered(rows[..n], draws);
      var before := Ratings(rows[..n], draws);
      var after := Ratings(rows, draws);
      RatingsStep(rows, draws, n, before, after);
      RatingForOf(rows, n, |before| + 1, draws(n));
      RatingsNumberedExtend(before, after, rows, n, RatingFor(rows[n], |before| + 1, draws(n)));
    }
  }

  lemma RatingOfStars(r: Rating, rows: seq<MergedRow>)
    requires RatingOf(r, rows)
    ensures 1 <= r.stars <= 5
  {
    var j :| 0 <= j < |rows| && r.orderId == rows[j].orderId && r.stars == Stars(rows[j]);
  }

  /** Numbered ratings have distinct ids and 1 to 5 stars. */
  lemma NumberedRatingsFacts(rs: seq<Rating>, rows: seq<MergedRow>)
    requires RatingsNumberedBy(rs, rows)
    ensures forall i :: 0 <= i < |rs| ==> 1 <= rs[i].stars <= 5
    ensures forall i, j :: 0 <= i < j < |rs| ==> rs[i].ratingId != rs[j].ratingId
  {
    forall i | 0 <= i < |rs|
      ensures 1 <= rs[i].stars <= 5
    {
      RatingOfStars(rs[i], rows);
    }
    forall i, j | 0 <= i < j < |rs|
      ensures rs[i].ratingId != rs[j].ratingId
    {
      if rs[i].ratingId == rs[j].ratingId {
        CounterIdInjective("rating_", i + 1, j + 1);
      }
    }
  }

  /** Rating ids are distinct; every rating has 1 to 5 stars and is for one of the rows with that row's stars. */
  lemma RatingsFacts(rows: seq<MergedRow>, draws: nat -> RatingDraw)
    ensures var rs := Ratings(rows, draws);
      && (forall i :: 0 <= i < |rs| ==> 1 <= rs[i].stars <= 5 && RatingOf(rs[i], rows))
      && (forall i, j :: 0 <= i < j < |rs| ==> rs[i].ratingId != rs[j].ratingId)
  {
    RatingsNumbered(rows, draws);
    NumberedRatingsFacts(Ratings(rows, draws), rows);
  }

  /** The ratings of one more row. */
  lemma RatingsSnoc(rows: seq<MergedRow>, i: nat, draws: nat -> RatingDraw)
    requires i < |rows|
    ensures var before := Ratings(rows[..i], draws);
      Ratings(rows[..i + 1], draws)
        == if draws(i).u < RatingRate then before + [RatingFor(rows[i], |before| + 1, draws(i))] else before
  {
    assert rows[..i + 1][..i] == rows[..i];
  }

  /** `generate_ratings` over the merged rows: a rating when the draw falls below the rating rate. */
  method GenerateRatings(rows: seq<MergedRow>, draws: nat -> RatingDraw) returns (ratings: seq<Rating>)
    ensures ratings == Ratings(rows, draws)
  {
    ratings := [];
    var counter := 1;
    for i := 0 to |rows|
      invariant ratings == Ratings(rows[..i], draws)
      invariant counter == |ratings| + 1
    {
      var row := rows[i];
      RatingsSnoc(rows, i, draws);
      var d := draws(i);
      if d.u < RatingRate {
        ratings := ratings + [RatingFor(row, counter, d)];
        counter := counter + 1;
      }
    }
    assert rows[..|rows|] == rows;
  }
}
