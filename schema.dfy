/**
 * The six tables of the fulfilment data set as records, and the schema's
 * constant vocabularies and thresholds. Timestamps are whole seconds.
 */
module Schema {
  import opened Wrappers

  datatype Order = Order(
    orderId: string,
    userId: string,
    storeId: string,
    category: string,
    basketValue: real,
    promisedEta: int,
    orderTime: int,
    region: string,
    timeOfDay: string,
    basketSize: string)

  /** `actualEta`, `deliveryTime` and `dasherId` are empty for a canceled delivery. */
  datatype Delivery = Delivery(
    orderId: string,
    actualEta: Option<int>,
    dasherWait: int,
    merchantPrepTime: int,
    distance: real,
    batched: bool,
    canceled: bool,
    deliveryTime: Option<int>,
    dasherId: Option<string>)

  datatype Item = Item(
    itemId: string,
    orderId: string,
    skuId: string,
    orderedQty: int,
    substituted: bool,
    missing: bool,
    refundAmount: real)

  datatype InventoryEvent = InventoryEvent(
    eventId: string,
    skuId: string,
    storeId: string,
    eventTime: int,
    inStockProb: real,
    oos: bool)

  datatype SupportEvent = SupportEvent(
    ticketId: string,
    orderId: string,
    issueType: string,
    ticketCreated: int)

  datatype Rating = Rating(
    ratingId: string,
    orderId: string,
    stars: int,
    freeText: Option<string>,
    ratingTime: int)

  /** Severity labels `HIGH`, `MEDIUM`, `LOW` shared by anomalies and incidents. */
  datatype Severity = High | Medium | Low

  function SeverityName(s: Severity): string {
    match s
    case High => "HIGH"
    case Medium => "MEDIUM"
    case Low => "LOW"
  }

  /** Sort rank of a severity: HIGH 3, MEDIUM 2, LOW 1. */
  function SeverityRank(s: Severity): nat {
    match s
    case High => 3
    case Medium => 2
    case Low => 1
  }

  const Categories: seq<string> := ["grocery", "convenience", "retail"]
  const TimesOfDay: seq<string> := ["breakfast", "lunch", "dinner", "late-night"]
  const BasketSizes: seq<string> := ["small", "medium", "large"]
  const Regions: seq<string> := ["SF", "NYC", "LA", "Chicago", "Boston"]
  const IssueTypes: seq<string> := ["late", "missing_item", "wrong_item", "other"]

  /** Upper bounds (exclusive, USD) of the small and medium basket sizes. */
  const SmallBasketUpper: real := 25.0
  const MediumBasketUpper: real := 75.0

  /**
   * Hour windows `[start, end)` of each time of day; late-night wraps
   * around midnight (21 to 6).
   */
  function TimeOfDayWindow(timeOfDay: string): (int, int)
    requires timeOfDay in TimesOfDay
  {
    if timeOfDay == "breakfast" then (6, 11)
    else if timeOfDay == "lunch" then (11, 15)
    else if timeOfDay == "dinner" then (17, 21)
    else (21, 6)
  }

  /** A DataFrame cell: text, or a number (timestamps as seconds). */
  datatype Cell = Text(text: string) | Num(num: real)

  /** A cohort: a dictionary from column name to value, as its items in insertion order. */
  ghost predicate DistinctKeys(c: seq<(string, Cell)>) {
    forall i, j :: 0 <= i < j < |c| ==> c[i].0 != c[j].0
  }

  type Cohort = c: seq<(string, Cell)> | DistinctKeys(c) witness []

  const OrderColumns: seq<string> := [
    "order_id", "user_id", "store_id", "category", "basket_value",
    "promised_eta", "order_time", "region", "time_of_day", "basket_size"]

  /** The cell of an orders row under a column name; None when there is no such column. */
  function Column(o: Order, name: string): (r: Option<Cell>)
    ensures r.Some? <==> name in OrderColumns
  {
    if name == "order_id" then Some(Text(o.orderId))
    else if name == "user_id" then Some(Text(o.userId))
    else if name == "store_id" then Some(Text(o.storeId))
    else if name == "category" then Some(Text(o.category))
    else if name == "basket_value" then Some(Num(o.basketValue))
    else if name == "promised_eta" then Some(Num(o.promisedEta as real))
    else if name == "order_time" then Some(Num(o.orderTime as real))
    else if name == "region" then Some(Text(o.region))
    else if name == "time_of_day" then Some(Text(o.timeOfDay))
    else if name == "basket_size" then Some(Text(o.basketSize))
    else None
  }

  /** The row equals the cohort on every cohort key that is a column. */
  predicate MatchesCohort(o: Order, cohort: seq<(string, Cell)>) {
    forall i :: 0 <= i < |cohort| && cohort[i].0 in OrderColumns ==> Column(o, cohort[i].0) == Some(cohort[i].1)
  }
}
