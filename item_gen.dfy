/**
 * The item generator: how many items an order holds, which SKUs they are,
 * whether each is substituted or missing given the store's in-stock
 * probability, and the refund owed. Every random draw is a parameter.
 */
module ItemGen {
  import opened Stats
  import opened Lists
  import opened Schema
  import OrderGen

  // ---------------------------------------------------------------------------
  // Catalogue and prices
  // ---------------------------------------------------------------------------

  const GrocerySkus: seq<string> := [
    "sku_milk_2gal", "sku_bread_white", "sku_eggs_dozen",
    "sku_chicken_breast", "sku_bananas_lb", "sku_apples_lb",
    "sku_lettuce_head", "sku_tomatoes_lb", "sku_onions_lb",
    "sku_pasta_spaghetti", "sku_sauce_marinara", "sku_cheese_cheddar",
    "sku_yogurt_greek", "sku_cereal_cheerios", "sku_coffee_grounds"]

  const ConvenienceSkus: seq<string> := [
    "sku_soda_coke", "sku_chips_lays", "sku_candy_snickers",
    "sku_water_bottle", "sku_sandwich_premade", "sku_coffee_ready",
    "sku_energy_drink", "sku_gum_trident", "sku_magazine_time"]

  const RetailSkus: seq<string> := [
    "sku_shampoo_head", "sku_toothpaste_colgate", "sku_deodorant_dove",
    "sku_paper_towels", "sku_detergent_tide", "sku_batteries_aa",
    "sku_lightbulb_led", "sku_tape_scotch", "sku_bandages_brand"]

  /** The SKUs a store of the category sells. */
  function SkuCatalog(category: string): (skus: seq<string>)
    requires category in Categories
    ensures |skus| == if category == "grocery" then 15 else 9
  {
    if category == "grocery" then GrocerySkus
    else if category == "convenience" then ConvenienceSkus
    else RetailSkus
  }

  /** Every SKU id begins with `sku_`. */
  predicate SkuShaped(s: string) {
    |s| >= 4 && s[..4] == "sku_"
  }

  lemma CatalogShaped(category: string, k: nat)
    requires category in Categories && k < |SkuCatalog(category)|
    ensures SkuShaped(SkuCatalog(category)[k])
  {
  }

  /** Unit prices in USD, one entry per SKU of the catalogue. */
  const SkuPrices: seq<(string, real)> := [
    ("sku_milk_2gal", 4.99), ("sku_bread_white", 2.49), ("sku_eggs_dozen", 3.99),
    ("sku_chicken_breast", 8.99), ("sku_bananas_lb", 0.79), ("sku_apples_lb", 1.99),
    ("sku_lettuce_head", 1.49), ("sku_tomatoes_lb", 2.99), ("sku_onions_lb", 0.99),
    ("sku_pasta_spaghetti", 1.29), ("sku_sauce_marinara", 2.99), ("sku_cheese_cheddar", 4.49),
    ("sku_yogurt_greek", 1.29), ("sku_cereal_cheerios", 4.99), ("sku_coffee_grounds", 7.99),
    ("sku_soda_coke", 1.99), ("sku_chips_lays", 3.49), ("sku_candy_snickers", 1.29),
    ("sku_water_bottle", 1.49), ("sku_sandwich_premade", 5.99), ("sku_coffee_ready", 2.99),
    ("sku_energy_drink", 2.99), ("sku_gum_trident", 1.49), ("sku_magazine_time", 4.99),
    ("sku_shampoo_head", 5.99), ("sku_toothpaste_colgate", 3.99), ("sku_deodorant_dove", 4.99),
    ("sku_paper_towels", 8.99), ("sku_detergent_tide", 12.99), ("sku_batteries_aa", 5.99),
    ("sku_lightbulb_led", 3.99), ("sku_tape_scotch", 2.99), ("sku_bandages_brand", 4.99)]

  /** `dict.get(key, default)` over a table of entries. */
  function Get(table: seq<(string, real)>, key: string, default: real): (r: real)
    ensures (exists i :: 0 <= i < |table| && table[i] == (key, r)) || r == default
    ensures (forall i :: 0 <= i < |table| ==> table[i].0 != key) ==> r == default
  {
    if |table| == 0 then default
    else if table[0].0 == key then table[0].1
    else Get(table[1..], key, default)
  }

  /** The price of a SKU; 5.00 for a SKU without one. */
  function Price(sku: string): real {
    Get(SkuPrices, sku, 5.0)
  }

  /** A value looked up in a table whose values, and the default, lie in `[lo, hi]` lies there too. */
  lemma {:induction false} GetWithin(table: seq<(string, real)>, key: string, default: real, lo: real, hi: real)
    requires lo <= default <= hi
    requires forall i :: 0 <= i < |table| ==> lo <= table[i].1 <= hi
    ensures lo <= Get(table, key, default) <= hi
  {
    if |table| > 0 && table[0].0 != key {
      GetWithin(table[1..], key, default, lo, hi);
    }
  }

  /** Every price lies between the cheapest and the dearest entry, the default included. */
  lemma PriceRange(sku: string)
    ensures 0.79 <= Price(sku) <= 12.99
  {
    GetWithin(SkuPrices, sku, 5.0, 0.79, 12.99);
  }

  // ---------------------------------------------------------------------------
  // Items per order
  // ---------------------------------------------------------------------------

  /** The average item price of a category. */
  function AvgPrice(category: string): (a: real)
    requires category in Categories
    ensures a > 0.0
  {
    if category == "grocery" then 3.50
    else if category == "convenience" then 2.50
    else 5.00
  }

  /** `max(1, int(basket_value / avg_price))`. */
  function BaseItemCount(category: string, basketValue: real): (n: int)
    requires category in Categories
    ensures n >= 1
    ensures 0.0 <= basketValue ==> basketValue / AvgPrice(category) < (n + 1) as real
    ensures 1.0 <= basketValue / AvgPrice(category) ==> n as real <= basketValue / AvgPrice(category)
  {
    var t := Trunc(basketValue / AvgPrice(category));
    if t >= 1 then t else 1
  }

  /** A larger basket never brings fewer items before the random spread. */
  lemma BaseItemCountMonotone(category: string, v: real, v': real)
    requires category in Categories && 0.0 <= v <= v'
    ensures BaseItemCount(category, v) <= BaseItemCount(category, v')
  {
    var a := AvgPrice(category);
    DivOrdered(v, v', a);
    TruncMonotone(v / a, v' / a);
  }

  /** `random.randint(lo, hi)` for the draw `k`. */
  function RandInt(lo: int, hi: int, k: nat): (n: int)
    requires lo <= hi
    ensures lo <= n <= hi
  {
    lo + k % (hi - lo + 1)
  }

  /** Every value of the range comes out of some draw. */
  lemma RandIntCovers(lo: int, hi: int, n: int)
    requires lo <= n <= hi
    ensures RandInt(lo, hi, (n - lo) as nat) == n
  {
  }

  /** The item count: spread by up to two either side of the base count, never below 1. */
  function ItemCount(category: string, basketValue: real, k: nat): (n: int)
    requires category in Categories
    ensures var base := BaseItemCount(category, basketValue);
      n >= 1 && n >= base - 2 && n <= base + 2
  {
    var base := BaseItemCount(category, basketValue);
    RandInt(if base - 2 > 1 then base - 2 else 1, base + 2, k)
  }

  /** Every count within two of the base count, and at least 1, can be drawn. */
  lemma ItemCountCovers(category: string, basketValue: real, n: int)
    requires category in Categories
    requires var base := BaseItemCount(category, basketValue);
      n >= 1 && base - 2 <= n <= base + 2
    ensures exists k: nat :: ItemCount(category, basketValue, k) == n
  {
    var base := BaseItemCount(category, basketValue);
    var lo := if base - 2 > 1 then base - 2 else 1;
    RandIntCovers(lo, base + 2, n);
    assert ItemCount(category, basketValue, (n - lo) as nat) == n;
  }

  // ---------------------------------------------------------------------------
  // Substitution, missing items, refunds
  // ---------------------------------------------------------------------------

  /** The substitution rate: 40% below 0.3 in stock, 15% below 0.6, else 5%. */
  function SubstituteRate(inStock: real): (r: real)
    ensures 0.05 <= r <= 0.4
  {
    if inStock < 0.3 then 0.4
    else if inStock < 0.6 then 0.15
    else 0.05
  }

  /** The missing rate: 30% below 0.2 in stock, 10% below 0.5, else 2%. */
  function MissingRate(inStock: real): (r: real)
    ensures 0.02 <= r <= 0.3
  {
    if inStock < 0.2 then 0.3
    else if inStock < 0.5 then 0.1
    else 0.02
  }

  /** The lower the in-stock probability, the higher both rates. */
  lemma RatesAntitone(p: real, p': real)
    requires p <= p'
    ensures SubstituteRate(p') <= SubstituteRate(p)
    ensures MissingRate(p') <= MissingRate(p)
  {
  }

  /** The rates at each rung of the ladders. */
  lemma RateLadders(p: real)
    ensures p < 0.3 <==> SubstituteRate(p) == 0.4
    ensures 0.3 <= p < 0.6 <==> SubstituteRate(p) == 0.15
    ensures 0.6 <= p <==> SubstituteRate(p) == 0.05
    ensures p < 0.2 <==> MissingRate(p) == 0.3
    ensures 0.2 <= p < 0.5 <==> MissingRate(p) == 0.1
    ensures 0.5 <= p <==> MissingRate(p) == 0.02
  {
  }

  /** `_should_substitute` for the uniform draw `u`. */
  predicate ShouldSubstitute(inStock: real, u: real) {
    u < SubstituteRate(inStock)
  }

  /** `_should_missing` for the uniform draw `u`. */
  predicate ShouldMiss(inStock: real, u: real) {
    u < MissingRate(inStock)
  }

  /** A draw that substitutes (or loses) an item still does so when stock is lower. */
  lemma ShouldFlagsAntitone(p: real, p': real, u: real)
    requires p' <= p
    ensures ShouldSubstitute(p, u) ==> ShouldSubstitute(p', u)
    ensures ShouldMiss(p, u) ==> ShouldMiss(p', u)
  {
    RatesAntitone(p', p);
  }

  /** The refund: the full price when missing, half of it when substituted, nothing otherwise. */
  function Refund(sku: string, missing: bool, substituted: bool): (r: real)
    ensures missing ==> r == Price(sku)
    ensures !missing && substituted ==> r == Price(sku) * 0.5
    ensures 0.0 <= r <= Price(sku)
    ensures r > 0.0 <==> missing || substituted
  {
    PriceRange(sku);
    if missing then Price(sku)
    else if substituted then Price(sku) * 0.5
    else 0.0
  }

  // ---------------------------------------------------------------------------
  // In-stock lookup
  // ---------------------------------------------------------------------------

  /** The key under which the data set records a store's mean in-stock probability for a SKU. */
  function InventoryKey(store: string, sku: string): (key: string)
    ensures |key| == |store| + 1 + |sku|
    ensures key[..|store|] == store && key[|store|] == '_'
  {
    store + "_" + sku
  }

  /**
   * The in-stock probability as the item generator reads it: the entry for
   * the bare SKU id, 0.9 when there is none (an absent or empty table
   * included).
   */
  function InStockProbBySku(probs: map<string, real>, sku: string): (p: real)
    ensures sku !in probs ==> p == 0.9
    ensures sku in probs ==> p == probs[sku]
  {
    if |probs| > 0 && sku in probs then probs[sku] else 0.9
  }

  /** The in-stock probability for a store and SKU, under the key the data set builds; 0.9 when unknown. */
  function InStockProb(probs: map<string, real>, store: string, sku: string): (p: real)
    ensures InventoryKey(store, sku) !in probs ==> p == 0.9
    ensures InventoryKey(store, sku) in probs ==> p == probs[InventoryKey(store, sku)]
  {
    InStockProbBySku(probs, InventoryKey(store, sku))
  }

  /** Every key of the table is a store-and-SKU key of a store id `store_...`. */
  ghost predicate KeyedByStore(probs: map<string, real>) {
    forall key :: key in probs ==> |key| >= 6 && key[..6] == "store_"
  }

  lemma InventoryKeyShaped(store: string, sku: string)
    requires |store| >= 6 && store[..6] == "store_"
    ensures var key := InventoryKey(store, sku); |key| >= 6 && key[..6] == "store_"
  {
    var key := InventoryKey(store, sku);
    assert key[..6] == key[..|store|][..6];
  }

  /**
   * The lookup by bare SKU never finds an entry of a table keyed by store and
   * SKU, so it yields 0.9 and both rates sit on their lowest rung.
   */
  lemma BySkuLookupMisses(probs: map<string, real>, sku: string)
    requires KeyedByStore(probs) && SkuShaped(sku)
    ensures InStockProbBySku(probs, sku) == 0.9
    ensures SubstituteRate(InStockProbBySku(probs, sku)) == 0.05
    ensures MissingRate(InStockProbBySku(probs, sku)) == 0.02
  {
    assert sku[1] == "sku_"[1] == 'k';
    forall key | key in probs ensures key[1] == 't' {
      assert key[1] == "store_"[1];
    }
    assert sku !in probs;
  }

  /** A store whose recorded mean for a SKU is below 0.2 in stock: the bare-SKU lookup ignores it. */
  lemma BySkuLookupIgnoresDegradation()
    ensures var probs := map[InventoryKey("store_sf_grocery_01", "sku_milk_2gal") := 0.15];
      && InStockProbBySku(probs, "sku_milk_2gal") == 0.9
      && MissingRate(InStockProbBySku(probs, "sku_milk_2gal")) == 0.02
      && InStockProb(probs, "store_sf_grocery_01", "sku_milk_2gal") == 0.15
      && MissingRate(InStockProb(probs, "store_sf_grocery_01", "sku_milk_2gal")) == 0.3
  {
    var key := InventoryKey("store_sf_grocery_01", "sku_milk_2gal");
    var probs := map[key := 0.15];
    var sku := "sku_milk_2gal";
    assert sku != key by {
      assert |sku| == 13 && |key| == 33;
    }
  }

  /**
   * Read by bare SKU, a table keyed by store and SKU leaves every generated
   * item at 0.9 in stock: it is substituted only on a draw below 0.05 and
   * missing only on a draw below 0.02, whatever the store's record says.
   */
  lemma BySkuItemsIgnoreInventory(order: Order, probs: map<string, real>, d: ItemDraw)
    requires order.category in Categories && KeyedByStore(probs)
    ensures var item := MakeItem(order, probs, d);
      && InStockProbBySku(probs, item.skuId) == 0.9
      && (item.substituted <==> d.substitute < 0.05)
      && (item.missing <==> d.missing < 0.02 && d.substitute >= 0.05)
  {
    var skus := SkuCatalog(order.category);
    CatalogShaped(order.category, d.sku % |skus|);
    BySkuLookupMisses(probs, DrawSku(order, d));
  }

  /** The store-and-SKU lookup passes the recorded mean on to both rates. */
  lemma InStockProbFollowsRecord(probs: map<string, real>, store: string, sku: string)
    requires InventoryKey(store, sku) in probs
    ensures SubstituteRate(InStockProb(probs, store, sku)) == SubstituteRate(probs[InventoryKey(store, sku)])
    ensures MissingRate(InStockProb(probs, store, sku)) == MissingRate(probs[InventoryKey(store, sku)])
    ensures probs[InventoryKey(store, sku)] < 0.2 ==>
      SubstituteRate(InStockProb(probs, store, sku)) == 0.4 && MissingRate(InStockProb(probs, store, sku)) == 0.3
  {
  }

  // ---------------------------------------------------------------------------
  // Items
  // ---------------------------------------------------------------------------

  /**
   * The random draws behind one item: the SKU choice, the two uniform
   * draws of the substitution and missing decisions, the quantity draw and
   * the item id.
   */
  datatype ItemDraw = ItemDraw(sku: nat, substitute: real, missing: real, qty: nat, itemId: string)

  /** The catalogue SKU the draw picks for the order. */
  function DrawSku(order: Order, d: ItemDraw): string
    requires order.category in Categories
  {
    OrderGen.Pick(SkuCatalog(order.category), d.sku)
  }

  /** The item of the order for the drawn SKU at the given in-stock probability. */
  function ItemAtStock(order: Order, d: ItemDraw, inStock: real): Item
    requires order.category in Categories
  {
    var sku := DrawSku(order, d);
    var substituted := ShouldSubstitute(inStock, d.substitute);
    var missing := ShouldMiss(inStock, d.missing) && !substituted;
    Item(d.itemId, order.orderId, sku, RandInt(1, 3, d.qty), substituted, missing, Refund(sku, missing, substituted))
  }

  /** One item of the order, its in-stock probability looked up by bare SKU as the generator does. */
  function MakeItem(order: Order, probs: map<string, real>, d: ItemDraw): (item: Item)
    requires order.category in Categories
  {
    ItemAtStock(order, d, InStockProbBySku(probs, DrawSku(order, d)))
  }

  /** One item of the order, its in-stock probability looked up under the store-and-SKU key. */
  function MakeItemCorrected(order: Order, probs: map<string, real>, d: ItemDraw): (item: Item)
    requires order.category in Categories
  {
    ItemAtStock(order, d, InStockProb(probs, order.storeId, DrawSku(order, d)))
  }

  /** What every generated item satisfies. */
  ghost predicate ItemOf(item: Item, order: Order, probs: map<string, real>)
    requires order.category in Categories
  {
    && item.orderId == order.orderId
    && item.skuId in SkuCatalog(order.category)
    && 1 <= item.orderedQty <= 3
    && !(item.missing && item.substituted)
    && (item.substituted ==> item.refundAmount == Price(item.skuId) * 0.5)
    && (item.missing ==> item.refundAmount == Price(item.skuId))
    && (!item.missing && !item.substituted ==> item.refundAmount == 0.0)
  }

  /**
   * An item belongs to its order, comes from the category's catalogue, has
   * a quantity of 1 to 3, is never both substituted and missing, and is
   * refunded by the refund rule; substitution and loss follow the draws at
   * the in-stock probability found under the bare SKU id.
   */
  lemma MakeItemFacts(order: Order, probs: map<string, real>, d: ItemDraw)
    requires order.category in Categories
    ensures var item := MakeItem(order, probs, d);
      var inStock := InStockProbBySku(probs, item.skuId);
      && ItemOf(item, order, probs)
      && (item.substituted <==> d.substitute < SubstituteRate(inStock))
      && (item.missing <==> d.missing < MissingRate(inStock) && d.substitute >= SubstituteRate(inStock))
  {
  }

  /**
   * The corrected item follows the store's inventory record: substitution
   * and loss follow the draws at the recorded probability, and a record
   * below 0.2 gives the top rates 0.4 and 0.3.
   */
  lemma CorrectedItemFollowsRecord(order: Order, probs: map<string, real>, d: ItemDraw)
    requires order.category in Categories
    requires InventoryKey(order.storeId, DrawSku(order, d)) in probs
    ensures var item := MakeItemCorrected(order, probs, d);
      var p := probs[InventoryKey(order.storeId, item.skuId)];
      && ItemOf(item, order, probs)
      && (item.substituted <==> d.substitute < SubstituteRate(p))
      && (item.missing <==> d.missing < MissingRate(p) && d.substitute >= SubstituteRate(p))
      && (p < 0.2 ==> (item.substituted <==> d.substitute < 0.4))
      && (p < 0.2 ==> (item.missing <==> d.missing < 0.3 && d.substitute >= 0.4))
  {
    var sku := DrawSku(order, d);
    var p := probs[InventoryKey(order.storeId, sku)];
    InStockProbFollowsRecord(probs, order.storeId, sku);
    assert MakeItemCorrected(order, probs, d) == ItemAtStock(order, d, p);
  }

  /** The items of one order, the `i`-th made from draw `i`. */
  function OrderItems(order: Order, probs: map<string, real>, count: nat, draws: nat -> ItemDraw): (items: seq<Item>)
    requires order.category in Categories
    ensures |items| == ItemCount(order.category, order.basketValue, count)
  {
    seq(ItemCount(order.category, order.basketValue, count), i requires 0 <= i => MakeItem(order, probs, draws(i)))
  }

  /** Every order has at least one item, and every item satisfies the item facts. */
  lemma OrderItemsFacts(order: Order, probs: map<string, real>, count: nat, draws: nat -> ItemDraw)
    requires order.category in Categories
    ensures var items := OrderItems(order, probs, count, draws);
      && |items| >= 1
      && forall i :: 0 <= i < |items| ==> ItemOf(items[i], order, probs)
  {
    var items := OrderItems(order, probs, count, draws);
    forall i | 0 <= i < |items|
      ensures ItemOf(items[i], order, probs)
    {
      MakeItemFacts(order, probs, draws(i));
    }
  }

  /** `generate_items`: draw the count, then one item per iteration. */
  method GenerateItems(order: Order, probs: map<string, real>, count: nat, draws: nat -> ItemDraw)
    returns (items: seq<Item>)
    requires order.category in Categories
    ensures items == OrderItems(order, probs, count, draws)
  {
    var n := ItemCount(order.category, order.basketValue, count);
    ghost var all := OrderItems(order, probs, count, draws);
    items := [];
    for i := 0 to n
      invariant items == all[..i]
    {
      var item := MakeItem(order, probs, draws(i));
      OrderGen.PrefixStep(all, i, item);
      items := items + [item];
    }
    assert all[..n] == all;
  }

  ghost predicate AllCategorized(orders: seq<Order>) {
    forall i :: 0 <= i < |orders| ==> orders[i].category in Categories
  }

  /** The items of all orders, in order; order `j` draws its count from `counts(j)` and its items from `draws(j, _)`. */
  function ItemsFor(orders: seq<Order>, probs: map<string, real>, counts: nat -> nat, draws: (nat, nat) -> ItemDraw)
    : (items: seq<Item>)
    requires AllCategorized(orders)
  {
    if |orders| == 0 then []
    else
      var n := |orders| - 1;
      ItemsFor(orders[..n], probs, counts, draws) + OrderItems(orders[n], probs, counts(n), (j: nat) => draws(n, j))
  }

  /** Every item belongs to one of the orders and satisfies the item facts; there are at least as many items as orders. */
  lemma {:induction false} ItemsForFacts(orders: seq<Order>, probs: map<string, real>, counts: nat -> nat,
                                        draws: (nat, nat) -> ItemDraw)
    requires AllCategorized(orders)
    ensures var items := ItemsFor(orders, probs, counts, draws);
      && |items| >= |orders|
      && forall i :: 0 <= i < |items| ==> exists j :: 0 <= j < |orders| && ItemOf(items[i], orders[j], probs)
  {
    if |orders| > 0 {
      var n := |orders| - 1;
      var init := orders[..n];
      ItemsForFacts(init, probs, counts, draws);
      var before := ItemsFor(init, probs, counts, draws);
      var last := OrderItems(orders[n], probs, counts(n), (j: nat) => draws(n, j));
      OrderItemsFacts(orders[n], probs, counts(n), (j: nat) => draws(n, j));
      var items := before + last;
      forall i | 0 <= i < |items|
        ensures exists j :: 0 <= j < |orders| && ItemOf(items[i], orders[j], probs)
      {
        if i < |before| {
          var j :| 0 <= j < |init| && ItemOf(before[i], init[j], probs);
          assert orders[j] == init[j];
        } else {
          assert ItemOf(last[i - |before|], orders[n], probs);
        }
      }
    }
  }

  /** `generate_items_for_orders`: extend the list with each order's items. */
  method GenerateItemsForOrders(orders: seq<Order>, probs: map<string, real>, counts: nat -> nat,
                                draws: (nat, nat) -> ItemDraw)
    returns (items: seq<Item>)
    requires AllCategorized(orders)
    ensures items == ItemsFor(orders, probs, counts, draws)
  {
    items := [];
    for i := 0 to |orders|
      invariant items == ItemsFor(orders[..i], probs, counts, draws)
    {
      var more := GenerateItems(orders[i], probs, counts(i), (j: nat) => draws(i, j));
      assert orders[..i + 1][..i] == orders[..i];
      items := items + more;
    }
    assert orders[..|orders|] == orders;
  }
}
