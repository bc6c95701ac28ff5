/**
 * The order generator: the time-of-day and basket-size classifications, the
 * store catalogue, the promised ETA, and the day-by-day generation of orders
 * from random draws. Timestamps are whole seconds since the epoch, in UTC.
 */
module OrderGen {
  import opened Strings
  import opened Lists
  import opened Schema

  // ---------------------------------------------------------------------------
  // Random choices
  // ---------------------------------------------------------------------------

  /** `random.choice(xs)` for the draw `n`: any element can come out, and nothing else. */
  function Pick<T>(xs: seq<T>, n: nat): (x: T)
    requires |xs| > 0
    ensures x in xs
  {
    xs[n % |xs|]
  }

  /** `list(range(a, b))`. */
  function Range(a: int, b: int): (r: seq<int>)
    requires a <= b
    ensures |r| == b - a
    ensures forall i :: 0 <= i < |r| ==> r[i] == a + i
  {
    seq(b - a, i requires 0 <= i < b - a => a + i)
  }

  // ---------------------------------------------------------------------------
  // Time of day and basket size
  // ---------------------------------------------------------------------------

  /** The time of day of an hour: 6-10 breakfast, 11-14 lunch, 17-20 dinner, every other hour late night. */
  function TimeOfDayOf(hour: int): (t: string)
    ensures t in TimesOfDay
  {
    if 6 <= hour < 11 then "breakfast"
    else if 11 <= hour < 15 then "lunch"
    else if 17 <= hour < 21 then "dinner"
    else "late-night"
  }

  /** The hours drawn for a time of day: its window, wrapping past midnight for late night. */
  function WindowHours(tod: string): (hs: seq<int>)
    requires tod in TimesOfDay
    ensures |hs| > 0
  {
    var (s, e) := TimeOfDayWindow(tod);
    if s > e then Range(s, 24) + Range(0, e) else Range(s, e)
  }

  /** Every hour drawn for a time of day is a clock hour that classifies back to it. */
  lemma HoursRoundTrip(tod: string)
    requires tod in TimesOfDay
    ensures forall h :: h in WindowHours(tod) ==> 0 <= h < 24 && TimeOfDayOf(h) == tod
  {
    var (s, e) := TimeOfDayWindow(tod);
    forall h | h in WindowHours(tod) ensures 0 <= h < 24 && TimeOfDayOf(h) == tod {
      if s > e {
        assert h in Range(s, 24) || h in Range(0, e);
      }
    }
  }

  /**
   * Late night is classified for its own window and also for 15:00-16:59,
   * the afternoon gap that no window covers.
   */
  lemma LateNightGap(h: int)
    requires 0 <= h < 24
    ensures TimeOfDayOf(h) == "late-night" <==> h in WindowHours("late-night") || h == 15 || h == 16
  {
    var hs := WindowHours("late-night");
    assert hs == Range(21, 24) + Range(0, 6);
    if 21 <= h { assert hs[h - 21] == h; }
    if h < 6 { assert hs[3 + h] == h; }
  }

  /** The basket size of a value: small below 25, medium below 75, large from 75. */
  function BasketSizeOf(value: real): (s: string)
    ensures s in BasketSizes
  {
    if value < 25.0 then "small"
    else if value < 75.0 then "medium"
    else "large"
  }

  /** The classification follows the schema's size thresholds. */
  lemma BasketSizeThresholds(value: real)
    ensures BasketSizeOf(value) == "small" <==> value < SmallBasketUpper
    ensures BasketSizeOf(value) == "medium" <==> SmallBasketUpper <= value < MediumBasketUpper
    ensures BasketSizeOf(value) == "large" <==> MediumBasketUpper <= value
  {
  }

  /** Base value range of a category's baskets (USD). */
  function BaseValueRange(category: string): (real, real)
    requires category in Categories
  {
    if category == "grocery" then (30.0, 80.0)
    else if category == "convenience" then (15.0, 40.0)
    else (25.0, 60.0)
  }

  /** Basket value multiplier of a time of day. */
  function ValueMultiplier(tod: string): real
    requires tod in TimesOfDay
  {
    if tod == "breakfast" then 0.8
    else if tod == "lunch" then 1.0
    else if tod == "dinner" then 1.2
    else 0.9
  }

  /** The range a basket value is drawn from: the category's range scaled by the time of day. */
  function BasketRange(category: string, tod: string): (r: (real, real))
    requires category in Categories && tod in TimesOfDay
    ensures 0.0 < r.0 < r.1
  {
    (BaseValueRange(category).0 * ValueMultiplier(tod), BaseValueRange(category).1 * ValueMultiplier(tod))
  }

  // ---------------------------------------------------------------------------
  // Promised ETA
  // ---------------------------------------------------------------------------

  /** Base preparation minutes of a category. */
  function BasePrepMinutes(category: string): int
    requires category in Categories
  {
    if category == "grocery" then 25 else if category == "convenience" then 10 else 15
  }

  /** Peak multiplier of a time of day. */
  function PeakMultiplier(tod: string): real
    requires tod in TimesOfDay
  {
    if tod == "breakfast" then 1.1
    else if tod == "lunch" then 1.3
    else if tod == "dinner" then 1.5
    else 1.0
  }

  /** Travel minutes of a region; 10 for a region the table does not list. */
  function TravelMinutes(region: string): int {
    if region == "SF" then 8
    else if region == "NYC" then 10
    else if region == "LA" then 12
    else if region == "Chicago" then 9
    else if region == "Boston" then 8
    else 10
  }

  /** Minutes promised: the truncated sum of the scaled preparation and the travel time. */
  function PromisedMinutes(category: string, region: string, tod: string): int
    requires category in Categories && tod in TimesOfDay
  {
    ((BasePrepMinutes(category) as real) * PeakMultiplier(tod) + TravelMinutes(region) as real).Floor
  }

  function PromisedEta(orderTime: int, category: string, region: string, tod: string): int
    requires category in Categories && tod in TimesOfDay
  {
    orderTime + 60 * PromisedMinutes(category, region, tod)
  }

  /**
   * The promise lies a whole number of minutes after the order, no sooner
   * than preparation plus travel and no later than one and a half times the
   * preparation plus travel.
   */
  lemma PromisedEtaBounds(orderTime: int, category: string, region: string, tod: string)
    requires category in Categories && tod in TimesOfDay
    ensures var m := PromisedMinutes(category, region, tod);
      && PromisedEta(orderTime, category, region, tod) - orderTime == 60 * m
      && BasePrepMinutes(category) + TravelMinutes(region) <= m
      && (m as real) <= 1.5 * (BasePrepMinutes(category) as real) + TravelMinutes(region) as real
      && m > 0
  {
    var b := BasePrepMinutes(category) as real;
    var p := PeakMultiplier(tod);
    assert b * p >= b by { assert b * p - b == b * (p - 1.0); }
    assert b * p <= 1.5 * b by { assert 1.5 * b - b * p == b * (1.5 - p); }
  }

  // ---------------------------------------------------------------------------
  // Store catalogue
  // ---------------------------------------------------------------------------

  /** `store_{region.lower()}_{category}_{i:02d}`. */
  function StoreId(region: string, category: string, i: nat): string {
    "store_" + Lower(region) + "_" + category + "_" + PadNum(i, 2)
  }

  /** Ten stores per region and category, region-major, numbered from 1. */
  function StoreIdAt(k: nat): string
    requires k < 150
  {
    StoreId(Regions[k / 30], Categories[k % 30 / 10], k % 30 % 10 + 1)
  }

  function StoreIds(): (ids: seq<string>)
    ensures |ids| == 150
  {
    seq(150, k requires 0 <= k < 150 => StoreIdAt(k))
  }

  /** Position of store `i` of a region and category in the catalogue. */
  lemma StoreIndex(r: nat, c: nat, i: nat)
    requires r < 5 && c < 3 && 1 <= i <= 10
    ensures var k := 30 * r + 10 * c + i - 1; k < 150 && k / 30 == r && k % 30 / 10 == c && k % 30 % 10 + 1 == i
  {
  }

  /** Every catalogue position is some region's, category's and number's. */
  lemma StoreIndexDecode(k: nat)
    requires k < 150
    ensures k == 30 * (k / 30) + 10 * (k % 30 / 10) + k % 30 % 10
    ensures k / 30 < 5 && k % 30 / 10 < 3
  {
    assert k == 30 * (k / 30) + k % 30;
    assert k % 30 == 10 * (k % 30 / 10) + k % 30 % 10;
  }

  /** The store `i` of a region and category sits at its position in the catalogue. */
  lemma StoreAt(r: nat, c: nat, i: nat)
    requires r < 5 && c < 3 && 1 <= i <= 10
    ensures 30 * r + 10 * c + i - 1 < 150
    ensures StoreIds()[30 * r + 10 * c + i - 1] == StoreId(Regions[r], Categories[c], i)
  {
    var k := 30 * r + 10 * c + i - 1;
    StoreIndex(r, c, i);
    StoreIdAtIndex(k, r, c, i);
  }

  lemma StoreIdAtIndex(k: nat, r: nat, c: nat, i: nat)
    requires k < 150 && r < 5 && c < 3 && k / 30 == r && k % 30 / 10 == c && k % 30 % 10 + 1 == i
    ensures StoreIds()[k] == StoreId(Regions[r], Categories[c], i)
  {
    assert StoreIds()[k] == StoreIdAt(k);
  }

  /** The innermost loop of `_generate_store_ids`: the ten stores of one region and category. */
  method AppendStores(ids: seq<string>, r: nat, c: nat) returns (ids': seq<string>)
    requires r < 5 && c < 3 && ids == StoreIds()[..30 * r + 10 * c]
    ensures ids' == StoreIds()[..30 * r + 10 * c + 10]
  {
    ids' := ids;
    for i := 1 to 11
      invariant ids' == StoreIds()[..30 * r + 10 * c + i - 1]
    {
      var id := StoreId(Regions[r], Categories[c], i);
      StoreAt(r, c, i);
      PrefixStep(StoreIds(), 30 * r + 10 * c + i - 1, id);
      ids' := ids' + [id];
    }
  }

  /** `_generate_store_ids`: nested loops over regions, categories and store numbers. */
  method GenerateStoreIds() returns (ids: seq<string>)
    ensures ids == StoreIds()
  {
    ids := [];
    for r := 0 to |Regions|
      invariant ids == StoreIds()[..30 * r]
    {
      for c := 0 to |Categories|
        invariant ids == StoreIds()[..30 * r + 10 * c]
      {
        ids := AppendStores(ids, r, c);
      }
    }
    assert StoreIds()[..150] == StoreIds();
  }

  /** Every character is an ASCII letter. */
  predicate Letters(s: string) {
    forall i :: 0 <= i < |s| ==> 'A' <= s[i] <= 'Z' || 'a' <= s[i] <= 'z'
  }

  lemma RegionLetters(k: nat)
    requires k < |Regions|
    ensures Letters(Regions[k]) && |Regions[k]| > 0
  {
  }

  /** A lower-cased region holds no `_`, so it ends where the store id's next field begins. */
  lemma NoSeparatorInRegion(region: string)
    requires region in Regions
    ensures '_' !in Lower(region)
  {
    var k :| 0 <= k < |Regions| && Regions[k] == region;
    RegionLetters(k);
  }

  /** Lower-casing keeps the five regions apart: they differ in length or in their initial. */
  lemma LowerRegionInjective(region: string, region': string)
    requires region in Regions && region' in Regions
    requires Lower(region) == Lower(region')
    ensures region == region'
  {
    var a :| 0 <= a < |Regions| && Regions[a] == region;
    var b :| 0 <= b < |Regions| && Regions[b] == region';
    LowerRegionIndexInjective(a, b);
  }

  lemma LowerRegionIndexInjective(a: nat, b: nat)
    requires a < |Regions| && b < |Regions| && Lower(Regions[a]) == Lower(Regions[b])
    ensures a == b
  {
    RegionShapes();
    if a != b {
      assert false;
    }
  }

  /** The regions' lengths, and the initials of the two of equal length. */
  lemma RegionShapes()
    ensures |Regions[0]| == |Regions[2]| == 2 && |Regions[1]| == 3 && |Regions[3]| == 7 && |Regions[4]| == 6
    ensures Regions[0][0] == 'S' && Regions[2][0] == 'L'
  {
  }

  /** A store id names its region, category and number. */
  lemma StoreIdInjective(region: string, category: string, i: nat, region': string, category': string, i': nat)
    requires region in Regions && region' in Regions && category in Categories && category' in Categories
    requires StoreId(region, category, i) == StoreId(region', category', i')
    ensures region == region' && category == category' && i == i'
  {
    var pad, pad' := PadNum(i, 2), PadNum(i', 2);
    var low, low' := Lower(region), Lower(region');
    StoreIdShape(low, category, pad);
    StoreIdShape(low', category', pad');
    DropPrefix("store_", low + ['_'] + (category + ['_'] + pad), low' + ['_'] + (category' + ['_'] + pad'));
    NoSeparatorInRegion(region);
    NoSeparatorInRegion(region');
    SplitAtSeparator(low, category + ['_'] + pad, low', category' + ['_'] + pad', '_');
    LowerRegionInjective(region, region');
    SplitAtSeparator(category, pad, category', pad', '_');
    PadNumInjective(i, i', 2);
  }

  lemma StoreIdShape(lower: string, category: string, pad: string)
    ensures "store_" + lower + "_" + category + "_" + pad == "store_" + (lower + ['_'] + (category + ['_'] + pad))
  {
  }

  lemma DropPrefix(p: string, x: string, y: string)
    requires p + x == p + y
    ensures x == y
  {
    assert x == (p + x)[|p|..];
    assert y == (p + y)[|p|..];
  }

  /** Two catalogue positions with the same id are the same position. */
  lemma StoreIdAtInjective(k: nat, k': nat)
    requires k < 150 && k' < 150 && StoreIdAt(k) == StoreIdAt(k')
    ensures k == k'
  {
    var r, c, i := k / 30, k % 30 / 10, k % 30 % 10 + 1;
    var r', c', i' := k' / 30, k' % 30 / 10, k' % 30 % 10 + 1;
    StoreIndexBounds(k);
    StoreIndexBounds(k');
    StoreIdAtIs(k);
    StoreIdAtIs(k');
    StoreIdIndexInjective(r, c, i, r', c', i');
    StoreIndexSame(k, k');
  }

  lemma StoreIdAtIs(k: nat)
    requires k < 150
    ensures StoreIdAt(k) == StoreId(Regions[k / 30], Categories[k % 30 / 10], k % 30 % 10 + 1)
  {
  }

  lemma StoreIndexBounds(k: nat)
    requires k < 150
    ensures k / 30 < 5 && k % 30 / 10 < 3
  {
  }

  lemma StoreIndexSame(k: nat, k': nat)
    requires k < 150 && k' < 150
    requires k / 30 == k' / 30 && k % 30 / 10 == k' % 30 / 10 && k % 30 % 10 == k' % 30 % 10
    ensures k == k'
  {
    StoreIndexDecode(k);
    StoreIndexDecode(k');
  }

  lemma StoreIdIndexInjective(r: nat, c: nat, i: nat, r': nat, c': nat, i': nat)
    requires r < 5 && c < 3 && r' < 5 && c' < 3
    requires StoreId(Regions[r], Categories[c], i) == StoreId(Regions[r'], Categories[c'], i')
    ensures r == r' && c == c' && i == i'
  {
    StoreIdInjective(Regions[r], Categories[c], i, Regions[r'], Categories[c'], i');
    RegionsDistinct(r, r');
    CategoriesDistinct(c, c');
  }

  lemma RegionsDistinct(a: nat, b: nat)
    requires a < 5 && b < 5 && Regions[a] == Regions[b]
    ensures a == b
  {
  }

  lemma CategoriesDistinct(a: nat, b: nat)
    requires a < 3 && b < 3 && Categories[a] == Categories[b]
    ensures a == b
  {
  }

  /** The 5 x 3 x 10 = 150 store ids are pairwise distinct. */
  lemma StoreIdsDistinct()
    ensures Distinct(StoreIds())
  {
    var ids := StoreIds();
    forall k, k' | 0 <= k < k' < |ids| ensures ids[k] != ids[k'] {
      if ids[k] == ids[k'] {
        StoreIdAtInjective(k, k');
      }
    }
  }

  /** The substring a store id must contain to serve a region and category. */
  function StorePattern(region: string, category: string): string {
    "_" + Lower(region) + "_" + category + "_"
  }

  /** A store id is `store`, the pattern, and the store number. */
  lemma Regroup(lower: string, category: string, pad: string)
    ensures "store_" + lower + "_" + category + "_" + pad == "store" + ("_" + lower + "_" + category + "_") + pad
  {
  }

  lemma StoreInCatalog(region: string, category: string)
    requires region in Regions && category in Categories
    ensures StoreId(region, category, 1) in StoreIds()
  {
    var r :| 0 <= r < |Regions| && Regions[r] == region;
    var c :| 0 <= c < |Categories| && Categories[c] == category;
    StoreAt(r, c, 1);
  }

  lemma StoreIdHasPattern(region: string, category: string, i: nat)
    ensures Contains(StoreId(region, category, i), StorePattern(region, category))
  {
    var pad := PadNum(i, 2);
    Regroup(Lower(region), category, pad);
    ContainsMiddle("store", StorePattern(region, category), pad);
  }

  /** The stores serving a region and category, in catalogue order. */
  function MatchingStores(region: string, category: string): seq<string> {
    Filter(StoreIds(), (s: string) => Contains(s, StorePattern(region, category)))
  }

  /**
   * Every valid region and category has a store: the first store of the
   * combination matches, so the fallback to the whole catalogue never fires.
   */
  lemma MatchingStoresFound(region: string, category: string)
    requires region in Regions && category in Categories
    ensures StoreId(region, category, 1) in MatchingStores(region, category)
    ensures |MatchingStores(region, category)| > 0
    ensures forall s :: s in MatchingStores(region, category) ==>
              s in StoreIds() && Contains(s, StorePattern(region, category))
  {
    StoreInCatalog(region, category);
    StoreIdHasPattern(region, category, 1);
  }

  // ---------------------------------------------------------------------------
  // Orders
  // ---------------------------------------------------------------------------

  /**
   * The random draws behind one order: the time-of-day slot, the hour within
   * its window, the minute, region, category, order id, user, store and the
   * basket value, which the draw gives unrounded.
   */
  datatype OrderDraw = OrderDraw(
    slot: nat, hour: nat, minute: nat, region: nat, category: nat,
    orderId: string, user: nat, store: nat, basketValue: real)

  /** The basket value lies in the range of the drawn category and time of day. */
  predicate ValidDraw(d: OrderDraw) {
    var r := BasketRange(Pick(Categories, d.category), Pick(TimesOfDay, d.slot));
    r.0 <= d.basketValue <= r.1
  }

  /** One of the 10000 users `user_000000` ... `user_009999`. */
  function UserId(n: nat): string {
    "user_" + PadNum(n % 10000, 6)
  }

  function Midnight(t: int): int { t - t % 86400 }

  function HourOf(t: int): int { t % 86400 / 3600 }

  /** `datetime.weekday()`: Monday 0 ... Sunday 6; the epoch fell on a Thursday. */
  function Weekday(t: int): int { (t / 86400 + 3) % 7 }

  /** A store of the region and category, or of the whole catalogue when none serves them. */
  function StoreFor(region: string, category: string, n: nat): string {
    var matching := MatchingStores(region, category);
    if |matching| > 0 then Pick(matching, n) else Pick(StoreIds(), n)
  }

  /** `generate_order` with the region and category left to chance. */
  function GenerateOrder(orderTime: int, d: OrderDraw): Order {
    var region := Pick(Regions, d.region);
    var category := Pick(Categories, d.category);
    var tod := TimeOfDayOf(HourOf(orderTime));
    var store := StoreFor(region, category, d.store);
    Order(d.orderId, UserId(d.user), store, category, d.basketValue,
          PromisedEta(orderTime, category, region, tod), orderTime, region, tod, BasketSizeOf(d.basketValue))
  }

  /** The time of an order of the day containing `day`: a drawn hour of the drawn slot, a drawn minute. */
  function OrderTime(day: int, d: OrderDraw): int {
    Midnight(day) + Pick(WindowHours(Pick(TimesOfDay, d.slot)), d.hour) * 3600 + d.minute % 60 * 60
  }

  lemma HourOfOrderTime(day: int, h: int, m: int)
    requires 0 <= h < 24 && 0 <= m < 60
    ensures var t := Midnight(day) + h * 3600 + m * 60;
      HourOf(t) == h && Midnight(t) == Midnight(day)
  {
    var x := h * 3600 + m * 60;
    assert Midnight(day) == day / 86400 * 86400;
    assert (Midnight(day) + x) % 86400 == x;
  }

  /** The order a draw makes on the day containing `day`. */
  function OrderOn(day: int, d: OrderDraw): Order {
    GenerateOrder(OrderTime(day, d), d)
  }

  /** Orders on a weekday; a fifth more, rounded down, on Saturday and Sunday. */
  function DailyOrders(weekday: int, perDay: nat): nat {
    if weekday >= 5 then ((perDay as real) * 1.2).Floor else perDay
  }

  /** A weekend day brings `6·n / 5` orders in integer division. */
  lemma DailyOrdersFacts(weekday: int, perDay: nat)
    ensures weekday >= 5 ==> DailyOrders(weekday, perDay) == 6 * perDay / 5
    ensures weekday < 5 ==> DailyOrders(weekday, perDay) == perDay
    ensures perDay <= DailyOrders(weekday, perDay) <= 6 * perDay / 5
  {
    var q := 6 * perDay / 5;
    var r := 6 * perDay % 5;
    assert (perDay as real) * 1.2 == (q as real) + (r as real) / 5.0;
  }

  /** The orders of one day, the `j`-th made from draw `(d, j)`. */
  function DayOrders(day: int, d: nat, perDay: nat, draws: (nat, nat) -> OrderDraw): (os: seq<Order>)
    ensures |os| == DailyOrders(Weekday(day), perDay)
  {
    seq(DailyOrders(Weekday(day), perDay), j requires 0 <= j => OrderOn(day, draws(d, j)))
  }

  /** The orders of the days from `cur` (day number `d`) until `end`, a day at a time. */
  function OrdersFrom(cur: int, end: int, d: nat, perDay: nat, draws: (nat, nat) -> OrderDraw): seq<Order>
    decreases end - cur
  {
    if cur >= end then []
    else DayOrders(cur, d, perDay, draws) + OrdersFrom(cur + 86400, end, d + 1, perDay, draws)
  }

  /** The inner loop of `generate_orders`: the day's orders one at a time. */
  method GenerateDay(cur: int, d: nat, perDay: nat, draws: (nat, nat) -> OrderDraw) returns (day: seq<Order>)
    ensures day == DayOrders(cur, d, perDay, draws)
  {
    var daily := DailyOrders(Weekday(cur), perDay);
    ghost var all := DayOrders(cur, d, perDay, draws);
    day := [];
    for j := 0 to daily
      invariant day == all[..j]
    {
      var draw := draws(d, j);
      var order := OrderOn(cur, draw);
      PrefixStep(all, j, order);
      day := day + [order];
    }
    assert all[..daily] == all;
  }

  lemma PrefixStep<T>(s: seq<T>, j: nat, x: T)
    requires j < |s| && s[j] == x
    ensures s[..j + 1] == s[..j] + [x]
  {
  }

  /** `generate_orders`: one day after another, the day's orders one at a time. */
  method GenerateOrders(start: int, end: int, perDay: nat, draws: (nat, nat) -> OrderDraw)
    returns (orders: seq<Order>)
    ensures orders == OrdersFrom(start, end, 0, perDay, draws)
  {
    orders := [];
    var cur := start;
    var d: nat := 0;
    while cur < end
      invariant orders + OrdersFrom(cur, end, d, perDay, draws) == OrdersFrom(start, end, 0, perDay, draws)
      decreases end - cur
    {
      var day := GenerateDay(cur, d, perDay, draws);
      orders := orders + day;
      cur := cur + 86400;
      d := d + 1;
    }
  }

  /** The number of days the generator walks from `cur` to `end`. */
  function Days(cur: int, end: int): nat
    decreases end - cur
  {
    if cur >= end then 0 else 1 + Days(cur + 86400, end)
  }

  lemma MulSucc(a: int, n: int)
    ensures a * (1 + n) == a + a * n
  {
  }

  /** Between `n` and `6·n / 5` orders a day. */
  lemma {:induction false} OrdersCount(cur: int, end: int, d: nat, perDay: nat, draws: (nat, nat) -> OrderDraw)
    ensures perDay * Days(cur, end) <= |OrdersFrom(cur, end, d, perDay, draws)| <= 6 * perDay / 5 * Days(cur, end)
    decreases end - cur
  {
    if cur < end {
      OrdersCount(cur + 86400, end, d + 1, perDay, draws);
      DailyOrdersFacts(Weekday(cur), perDay);
      var rest := Days(cur + 86400, end);
      var w := 6 * perDay / 5;
      MulSucc(perDay, rest);
      MulSucc(w, rest);
    }
  }

  /** What every generated order satisfies. */
  ghost predicate WellFormed(o: Order) {
    && o.category in Categories && o.region in Regions
    && o.timeOfDay == TimeOfDayOf(HourOf(o.orderTime))
    && o.basketSize == BasketSizeOf(o.basketValue)
    && BasketRange(o.category, o.timeOfDay).0 <= o.basketValue <= BasketRange(o.category, o.timeOfDay).1
    && o.promisedEta == PromisedEta(o.orderTime, o.category, o.region, o.timeOfDay)
    && o.storeId in StoreIds() && Contains(o.storeId, StorePattern(o.region, o.category))
  }

  /**
   * The `j`-th order of a day falls within that calendar day, in the drawn
   * time-of-day slot, and is well formed when its draw is valid.
   */
  lemma DayOrderFacts(day: int, d: nat, perDay: nat, draws: (nat, nat) -> OrderDraw, j: nat)
    requires j < DailyOrders(Weekday(day), perDay)
    ensures var o := DayOrders(day, d, perDay, draws)[j];
      && Midnight(day) <= o.orderTime < Midnight(day) + 86400
      && o.timeOfDay == Pick(TimesOfDay, draws(d, j).slot)
      && (ValidDraw(draws(d, j)) ==> WellFormed(o))
  {
    var draw := draws(d, j);
    assert DayOrders(day, d, perDay, draws)[j] == OrderOn(day, draw);
    OrderOnTime(day, draw);
    if ValidDraw(draw) {
      OrderOnWellFormed(day, draw);
    }
  }

  /** An order falls within its calendar day, in the drawn time-of-day slot. */
  lemma OrderOnTime(day: int, draw: OrderDraw)
    ensures var o := OrderOn(day, draw);
      && Midnight(day) <= o.orderTime < Midnight(day) + 86400
      && o.timeOfDay == Pick(TimesOfDay, draw.slot)
  {
    OrderTimeFacts(day, draw);
  }

  lemma OrderTimeFacts(day: int, draw: OrderDraw)
    ensures var t := OrderTime(day, draw);
      && Midnight(day) <= t < Midnight(day) + 86400
      && TimeOfDayOf(HourOf(t)) == Pick(TimesOfDay, draw.slot)
  {
    var tod := Pick(TimesOfDay, draw.slot);
    var h := Pick(WindowHours(tod), draw.hour);
    HoursRoundTrip(tod);
    HourOfOrderTime(day, h, draw.minute % 60);
    assert TimeOfDayOf(h) == tod;
    assert OrderTime(day, draw) == Midnight(day) + h * 3600 + draw.minute % 60 * 60;
  }

  /** A valid draw makes a well-formed order. */
  lemma OrderOnWellFormed(day: int, draw: OrderDraw)
    requires ValidDraw(draw)
    ensures WellFormed(OrderOn(day, draw))
  {
    var o := OrderOn(day, draw);
    OrderOnTime(day, draw);
    MatchingStoresFound(o.region, o.category);
  }

  /** With valid draws every generated order is well formed. */
  lemma {:induction false} OrdersWellFormed(cur: int, end: int, d: nat, perDay: nat, draws: (nat, nat) -> OrderDraw)
    requires forall a: nat, b: nat :: ValidDraw(draws(a, b))
    ensures forall o :: o in OrdersFrom(cur, end, d, perDay, draws) ==> WellFormed(o)
    decreases end - cur
  {
    if cur < end {
      OrdersWellFormed(cur + 86400, end, d + 1, perDay, draws);
      var day := DayOrders(cur, d, perDay, draws);
      forall j | 0 <= j < |day| ensures WellFormed(day[j]) {
        DayOrderFacts(cur, d, perDay, draws, j);
      }
    }
  }
}
