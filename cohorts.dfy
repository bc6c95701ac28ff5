/**
 * Cohort slicing: the distinct values of a dimension, every combination of
 * values over the requested dimensions, per-cohort metrics above a minimum
 * order count, and the cohorts whose metric fell between two periods.
 */
module Cohorts {
  import opened Wrappers
  import opened Stats
  import opened Strings
  import opened Lists
  import opened Schema
  import opened CxMetrics

  /** The dimensions sliced by default. */
  const CohortDimensions: seq<string> := ["store_id", "category", "region", "time_of_day", "basket_size"]

  // ---------------------------------------------------------------------------
  // Distinct values of a column
  // ---------------------------------------------------------------------------

  /**
   * The order `sorted` uses on the values of one column: numbers by value,
   * text by code points. A column holds one kind of value; numbers are put
   * before text so that the order is total.
   */
  predicate CellLess(a: Cell, b: Cell) {
    match (a, b)
    case (Num(x), Num(y)) => x < y
    case (Num(_), Text(_)) => true
    case (Text(_), Num(_)) => false
    case (Text(x), Text(y)) => Less(x, y)
  }

  lemma CellLessIrreflexive(a: Cell)
    ensures !CellLess(a, a)
  {
    if a.Text? { LessIrreflexive(a.text); }
  }

  lemma CellLessTransitive(a: Cell, b: Cell, c: Cell)
    requires CellLess(a, b) && CellLess(b, c)
    ensures CellLess(a, c)
  {
    if a.Text? && b.Text? && c.Text? { LessTransitive(a.text, b.text, c.text); }
  }

  lemma CellLessTotal(a: Cell, b: Cell)
    ensures a == b || CellLess(a, b) || CellLess(b, a)
  {
    if a.Text? && b.Text? { LessTotal(a.text, b.text); }
  }

  ghost predicate StrictlySorted(s: seq<Cell>) {
    forall i, j :: 0 <= i < j < |s| ==> CellLess(s[i], s[j])
  }

  /** Insert a value into a strictly sorted list unless it is already there. */
  function InsertCell(c: Cell, s: seq<Cell>): seq<Cell> {
    if |s| == 0 then [c]
    else if c == s[0] then s
    else if CellLess(c, s[0]) then [c] + s
    else [s[0]] + InsertCell(c, s[1..])
  }

  lemma {:induction false} InsertCellSorted(c: Cell, s: seq<Cell>)
    requires StrictlySorted(s)
    ensures StrictlySorted(InsertCell(c, s))
    ensures forall x :: x in InsertCell(c, s) <==> x in s || x == c
  {
    if |s| == 0 {
    } else if c == s[0] {
    } else if CellLess(c, s[0]) {
      var r := [c] + s;
      forall i, j | 0 <= i < j < |r| ensures CellLess(r[i], r[j]) {
        if i == 0 && j > 1 { CellLessTransitive(c, s[0], s[j - 1]); }
      }
    } else {
      CellLessTotal(c, s[0]);
      InsertCellSorted(c, s[1..]);
      var t := InsertCell(c, s[1..]);
      var r := [s[0]] + t;
      forall i, j | 0 <= i < j < |r| ensures CellLess(r[i], r[j]) {
        if i == 0 {
          assert r[j] in t;
          if r[j] != c {
            var k :| 0 <= k < |s[1..]| && s[1..][k] == r[j];
            assert s[k + 1] == r[j];
          }
        }
      }
      assert s == [s[0]] + s[1..];
    }
  }

  /** `sorted(set(cells))`, built by insertion. */
  function SortedUnique(cells: seq<Cell>): seq<Cell> {
    if |cells| == 0 then [] else InsertCell(cells[|cells| - 1], SortedUnique(cells[..|cells| - 1]))
  }

  lemma {:induction false} SortedUniqueFacts(cells: seq<Cell>)
    ensures StrictlySorted(SortedUnique(cells))
    ensures forall x :: x in SortedUnique(cells) <==> x in cells
  {
    if |cells| > 0 {
      var init := cells[..|cells| - 1];
      SortedUniqueFacts(init);
      InsertCellSorted(cells[|cells| - 1], SortedUnique(init));
      assert cells == init + [cells[|cells| - 1]];
    }
  }

  function ColumnCells(orders: seq<Order>, dimension: string): (r: seq<Cell>)
    requires dimension in OrderColumns
    ensures forall c :: c in r <==> exists i :: 0 <= i < |orders| && Column(orders[i], dimension) == Some(c)
  {
    var r := seq(|orders|, i requires 0 <= i < |orders| => Column(orders[i], dimension).value);
    assert forall i :: 0 <= i < |orders| ==> Column(orders[i], dimension) == Some(r[i]);
    r
  }

  /**
   * The distinct values of a column in ascending order; no values for a
   * dimension that is not a column.
   */
  function GetUniqueValues(orders: seq<Order>, dimension: string): (r: seq<Cell>)
    ensures dimension !in OrderColumns ==> r == []
    ensures StrictlySorted(r)
    ensures dimension in OrderColumns ==>
              forall c :: c in r <==> exists i :: 0 <= i < |orders| && Column(orders[i], dimension) == Some(c)
  {
    if dimension !in OrderColumns then []
    else
      SortedUniqueFacts(ColumnCells(orders, dimension));
      SortedUnique(ColumnCells(orders, dimension))
  }

  // ---------------------------------------------------------------------------
  // Cartesian product of dimension values
  // ---------------------------------------------------------------------------

  function Prepend(x: Cell, ps: seq<seq<Cell>>): (r: seq<seq<Cell>>)
    ensures |r| == |ps| && forall k :: 0 <= k < |ps| ==> r[k] == [x] + ps[k]
  {
    seq(|ps|, k requires 0 <= k < |ps| => [x] + ps[k])
  }

  /** Every `x` of `xs` in front of every tuple of `ps`, `x` varying slowest. */
  function Prefixed(xs: seq<Cell>, ps: seq<seq<Cell>>): seq<seq<Cell>> {
    if |xs| == 0 then [] else Prepend(xs[0], ps) + Prefixed(xs[1..], ps)
  }

  /** `itertools.product(*vs)`: the first position varies slowest. */
  function Product(vs: seq<seq<Cell>>): seq<seq<Cell>>
    decreases |vs|
  {
    if |vs| == 0 then [[]] else Prefixed(vs[0], Product(vs[1..]))
  }

  function ProductSize(vs: seq<seq<Cell>>): nat
    decreases |vs|
  {
    if |vs| == 0 then 1 else |vs[0]| * ProductSize(vs[1..])
  }

  /** `t` picks one value from each list of `vs`, in order. */
  ghost predicate Picks(t: seq<Cell>, vs: seq<seq<Cell>>) {
    |t| == |vs| && forall i :: 0 <= i < |vs| ==> t[i] in vs[i]
  }

  lemma PrefixedFacts(xs: seq<Cell>, ps: seq<seq<Cell>>)
    ensures |Prefixed(xs, ps)| == |xs| * |ps|
    ensures forall t :: t in Prefixed(xs, ps) <==> |t| > 0 && t[0] in xs && t[1..] in ps
  {
    PrefixedSize(xs, ps);
    forall t ensures t in Prefixed(xs, ps) <==> |t| > 0 && t[0] in xs && t[1..] in ps {
      PrefixedMember(xs, ps, t);
    }
  }

  lemma {:induction false} PrefixedSize(xs: seq<Cell>, ps: seq<seq<Cell>>)
    ensures |Prefixed(xs, ps)| == |xs| * |ps|
  {
    if |xs| > 0 {
      var n := |xs| - 1;
      PrefixedSize(xs[1..], ps);
      assert |Prefixed(xs, ps)| == |ps| + n * |ps|;
      calc { |xs| * |ps|; == (n + 1) * |ps|; == n * |ps| + |ps|; }
    }
  }

  lemma {:induction false} PrefixedMember(xs: seq<Cell>, ps: seq<seq<Cell>>, t: seq<Cell>)
    ensures t in Prefixed(xs, ps) <==> |t| > 0 && t[0] in xs && t[1..] in ps
  {
    if |xs| > 0 {
      var head := Prepend(xs[0], ps);
      var rest := Prefixed(xs[1..], ps);
      PrefixedMember(xs[1..], ps, t);
      assert Prefixed(xs, ps) == head + rest;
      assert t in head <==> |t| > 0 && t[0] == xs[0] && t[1..] in ps by {
        if t in head {
          var k :| 0 <= k < |ps| && head[k] == t;
          assert t[1..] == ps[k];
        }
        if |t| > 0 && t[0] == xs[0] && t[1..] in ps {
          var k :| 0 <= k < |ps| && ps[k] == t[1..];
          assert t == [xs[0]] + ps[k];
          assert head[k] == t;
        }
      }
      assert xs == [xs[0]] + xs[1..];
    }
  }

  /** The product has one tuple per way of picking a value from each list, and no other. */
  lemma {:induction false} ProductFacts(vs: seq<seq<Cell>>)
    ensures |Product(vs)| == ProductSize(vs)
    ensures forall t :: t in Product(vs) <==> Picks(t, vs)
    decreases |vs|
  {
    if |vs| > 0 {
      ProductFacts(vs[1..]);
      PrefixedFacts(vs[0], Product(vs[1..]));
      forall t ensures t in Product(vs) <==> Picks(t, vs) {
        if |t| > 0 {
          if Picks(t, vs) {
            assert Picks(t[1..], vs[1..]) by {
              forall i | 0 <= i < |vs| - 1 ensures t[1..][i] in vs[1..][i] {
                assert t[i + 1] in vs[i + 1];
              }
            }
          }
          if t[0] in vs[0] && Picks(t[1..], vs[1..]) {
            forall i | 0 <= i < |vs| ensures t[i] in vs[i] {
              if i > 0 { assert t[1..][i - 1] in vs[1..][i - 1]; }
            }
          }
        }
      }
    }
  }

  lemma ProductTupleLengths(vs: seq<seq<Cell>>)
    ensures forall k :: 0 <= k < |Product(vs)| ==> |Product(vs)[k]| == |vs|
  {
    ProductFacts(vs);
    forall k | 0 <= k < |Product(vs)| ensures |Product(vs)[k]| == |vs| {
      assert Product(vs)[k] in Product(vs);
    }
  }

  // ---------------------------------------------------------------------------
  // Enumerating cohorts
  // ---------------------------------------------------------------------------

  /** The requested dimensions that are columns of the orders table. */
  function Available(dimensions: seq<string>): (r: seq<string>)
    ensures forall d :: d in r <==> d in dimensions && d in OrderColumns
  {
    if |dimensions| == 0 then []
    else
      var last := dimensions[|dimensions| - 1];
      assert dimensions == dimensions[..|dimensions| - 1] + [last];
      Available(dimensions[..|dimensions| - 1]) + (if last in OrderColumns then [last] else [])
  }

  /** Dictionary keys after inserting `s` in order: first occurrences only. */
  function Dedup(s: seq<string>): (r: seq<string>)
    ensures forall x :: x in r <==> x in s
    ensures forall i, j :: 0 <= i < j < |r| ==> r[i] != r[j]
  {
    if |s| == 0 then []
    else
      var prev := Dedup(s[..|s| - 1]);
      var last := s[|s| - 1];
      assert s == s[..|s| - 1] + [last];
      if last in prev then prev else prev + [last]
  }

  function Zip(keys: seq<string>, values: seq<Cell>): (c: seq<(string, Cell)>)
    requires |keys| == |values|
    ensures |c| == |keys| && forall i :: 0 <= i < |keys| ==> c[i] == (keys[i], values[i])
  {
    seq(|keys|, i requires 0 <= i < |keys| => (keys[i], values[i]))
  }

  /** The cohort keys: the available requested dimensions (all five by default), deduplicated. */
  function CohortKeys(dimensions: Option<seq<string>>): (keys: seq<string>)
    ensures forall i, j :: 0 <= i < j < |keys| ==> keys[i] != keys[j]
    ensures forall i :: 0 <= i < |keys| ==> keys[i] in OrderColumns
  {
    Dedup(Available(dimensions.GetOr(CohortDimensions)))
  }

  function DimensionValues(orders: seq<Order>, keys: seq<string>): (vs: seq<seq<Cell>>)
    ensures |vs| == |keys| && forall i :: 0 <= i < |keys| ==> vs[i] == GetUniqueValues(orders, keys[i])
  {
    seq(|keys|, i requires 0 <= i < |keys| => GetUniqueValues(orders, keys[i]))
  }

  /** Reference enumeration: one cohort per tuple of the product, or one empty cohort. */
  function AllCohorts(orders: seq<Order>, dimensions: Option<seq<string>>): seq<seq<(string, Cell)>> {
    var keys := CohortKeys(dimensions);
    if |keys| == 0 then [[]]
    else
      var ps := Product(DimensionValues(orders, keys));
      ProductTupleLengths(DimensionValues(orders, keys));
      seq(|ps|, k requires 0 <= k < |ps| => Zip(keys, ps[k]))
  }

  /** The cohort has exactly `keys`, in order, each with a value that occurs in its column. */
  ghost predicate CohortOver(c: seq<(string, Cell)>, keys: seq<string>, orders: seq<Order>) {
    DistinctKeys(c) && |c| == |keys|
    && forall i :: 0 <= i < |c| ==> c[i].0 == keys[i] && c[i].1 in GetUniqueValues(orders, keys[i])
  }

  /**
   * With no available dimension there is one empty cohort (all data);
   * otherwise the cohorts are the full cartesian product: their number is
   * the product of the distinct-value counts, each has exactly the cohort
   * keys, each value occurs in its column, and every combination occurs.
   */
  lemma AllCohortsFacts(orders: seq<Order>, dimensions: Option<seq<string>>)
    ensures CohortKeys(dimensions) == [] ==> AllCohorts(orders, dimensions) == [[]]
    ensures CohortKeys(dimensions) != [] ==>
              |AllCohorts(orders, dimensions)| == ProductSize(DimensionValues(orders, CohortKeys(dimensions)))
    ensures forall c :: c in AllCohorts(orders, dimensions) ==> CohortOver(c, CohortKeys(dimensions), orders)
    ensures forall t :: Picks(t, DimensionValues(orders, CohortKeys(dimensions))) ==>
              Zip(CohortKeys(dimensions), t) in AllCohorts(orders, dimensions)
  {
    if CohortKeys(dimensions) != [] {
      AllCohortsIndexed(orders, dimensions);
      ProductFacts(DimensionValues(orders, CohortKeys(dimensions)));
      AllCohortsOver(orders, dimensions);
      AllCohortsComplete(orders, dimensions);
    }
  }

  lemma AllCohortsOver(orders: seq<Order>, dimensions: Option<seq<string>>)
    requires CohortKeys(dimensions) != []
    ensures forall c :: c in AllCohorts(orders, dimensions) ==> CohortOver(c, CohortKeys(dimensions), orders)
  {
    var keys := CohortKeys(dimensions);
    var all := AllCohorts(orders, dimensions);
    var ps := Product(DimensionValues(orders, keys));
    AllCohortsIndexed(orders, dimensions);
    ProductFacts(DimensionValues(orders, keys));
    forall c | c in all ensures CohortOver(c, keys, orders) {
      var k :| 0 <= k < |all| && all[k] == c;
      assert ps[k] in ps;
      ZipCohortOver(keys, ps[k], orders);
    }
  }

  lemma AllCohortsComplete(orders: seq<Order>, dimensions: Option<seq<string>>)
    requires CohortKeys(dimensions) != []
    ensures forall t :: Picks(t, DimensionValues(orders, CohortKeys(dimensions))) ==>
              Zip(CohortKeys(dimensions), t) in AllCohorts(orders, dimensions)
  {
    var keys := CohortKeys(dimensions);
    var all := AllCohorts(orders, dimensions);
    var ps := Product(DimensionValues(orders, keys));
    AllCohortsIndexed(orders, dimensions);
    ProductFacts(DimensionValues(orders, keys));
    forall t | Picks(t, DimensionValues(orders, keys)) ensures Zip(keys, t) in all {
      var k :| 0 <= k < |ps| && ps[k] == t;
      assert all[k] == Zip(keys, t);
    }
  }

  /** With some cohort key, cohort k pairs the keys with the k-th tuple of the product. */
  lemma AllCohortsIndexed(orders: seq<Order>, dimensions: Option<seq<string>>)
    requires CohortKeys(dimensions) != []
    ensures |AllCohorts(orders, dimensions)| == |Product(DimensionValues(orders, CohortKeys(dimensions)))|
    ensures forall k :: 0 <= k < |AllCohorts(orders, dimensions)| ==>
              |Product(DimensionValues(orders, CohortKeys(dimensions)))[k]| == |CohortKeys(dimensions)| &&
              AllCohorts(orders, dimensions)[k] ==
                Zip(CohortKeys(dimensions), Product(DimensionValues(orders, CohortKeys(dimensions)))[k])
  {
    ProductTupleLengths(DimensionValues(orders, CohortKeys(dimensions)));
  }

  /** Pairing distinct keys with a tuple of their column values gives a cohort over those keys. */
  lemma ZipCohortOver(keys: seq<string>, t: seq<Cell>, orders: seq<Order>)
    requires forall i, j :: 0 <= i < j < |keys| ==> keys[i] != keys[j]
    requires Picks(t, DimensionValues(orders, keys))
    ensures CohortOver(Zip(keys, t), keys, orders)
  {
  }

  /** `get_all_cohorts`: appends one cohort per combination of the product. */
  method GetAllCohorts(orders: seq<Order>, dimensions: Option<seq<string>>) returns (cohorts: seq<seq<(string, Cell)>>)
    ensures cohorts == AllCohorts(orders, dimensions)
  {
    var keys := CohortKeys(dimensions);
    if |keys| == 0 {
      return [[]];
    }
    var values := DimensionValues(orders, keys);
    var combinations := Product(values);
    ProductTupleLengths(values);
    cohorts := ZipAll(keys, combinations);
    ghost var all := AllCohorts(orders, dimensions);
    assert |all| == |cohorts| && forall k :: 0 <= k < |all| ==> all[k] == cohorts[k];
  }

  /** The loop of `get_all_cohorts`: one cohort per combination, keys paired with its values. */
  method ZipAll(keys: seq<string>, combinations: seq<seq<Cell>>) returns (cohorts: seq<seq<(string, Cell)>>)
    requires forall k :: 0 <= k < |combinations| ==> |combinations[k]| == |keys|
    ensures |cohorts| == |combinations|
    ensures forall k :: 0 <= k < |combinations| ==> cohorts[k] == Zip(keys, combinations[k])
  {
    cohorts := [];
    var i := 0;
    while i < |combinations|
      invariant 0 <= i <= |combinations| && |cohorts| == i
      invariant forall k :: 0 <= k < i ==> cohorts[k] == Zip(keys, combinations[k])
    {
      cohorts := cohorts + [Zip(keys, combinations[i])];
      i := i + 1;
    }
  }

  // ---------------------------------------------------------------------------
  // Metrics of every cohort with enough orders
  // ---------------------------------------------------------------------------

  /** The five tables of one period. */
  datatype Tables = Tables(
    orders: seq<Order>,
    deliveries: seq<Delivery>,
    items: seq<Item>,
    support: seq<SupportEvent>,
    ratings: seq<Rating>)

  /** A cohort, its metrics and its number of orders. */
  datatype CohortMetrics = CohortMetrics(cohort: seq<(string, Cell)>, metrics: Metrics, orderCount: int)

  function CalculateCohortMetrics(cohort: seq<(string, Cell)>, t: Tables): (r: CohortMetrics)
    ensures r.cohort == cohort
    ensures r.orderCount == |KeepMatching(t.orders, cohort)|
    ensures 0.0 <= r.metrics.cxScore <= 100.0
  {
    FilterByCohortMatches(t.orders, cohort);
    CohortMetrics(cohort,
                  MetricsForCohort(cohort, t.orders, t.deliveries, t.items, t.support, t.ratings),
                  |FilterByCohort(t.orders, cohort)|)
  }

  function AllMetrics(cohorts: seq<seq<(string, Cell)>>, t: Tables): (ms: seq<CohortMetrics>)
    ensures |ms| == |cohorts| && forall k :: 0 <= k < |cohorts| ==> ms[k] == CalculateCohortMetrics(cohorts[k], t)
  {
    seq(|cohorts|, k requires 0 <= k < |cohorts| => CalculateCohortMetrics(cohorts[k], t))
  }

  /** The entries, in order, with at least `minOrders` orders. */
  function KeepLarge(ms: seq<CohortMetrics>, minOrders: int): (r: seq<CohortMetrics>)
    ensures forall x :: x in r <==> x in ms && x.orderCount >= minOrders
  {
    if |ms| == 0 then []
    else
      var last := ms[|ms| - 1];
      assert ms == ms[..|ms| - 1] + [last];
      KeepLarge(ms[..|ms| - 1], minOrders) + (if last.orderCount < minOrders then [] else [last])
  }

  function CohortsOf(rs: seq<CohortMetrics>): (cs: seq<seq<(string, Cell)>>)
    ensures |cs| == |rs| && forall k :: 0 <= k < |rs| ==> cs[k] == rs[k].cohort
  {
    seq(|rs|, k requires 0 <= k < |rs| => rs[k].cohort)
  }

  /**
   * Every kept cohort has at least `minOrders` orders, and a cohort is kept
   * exactly when it has that many.
   */
  lemma LargeCohortsFacts(cohorts: seq<seq<(string, Cell)>>, t: Tables, minOrders: int)
    ensures forall x :: x in KeepLarge(AllMetrics(cohorts, t), minOrders) ==> x.orderCount >= minOrders
    ensures forall c :: c in CohortsOf(KeepLarge(AllMetrics(cohorts, t), minOrders))
                        <==> c in cohorts && |KeepMatching(t.orders, c)| >= minOrders
  {
    var r := KeepLarge(AllMetrics(cohorts, t), minOrders);
    forall c ensures c in CohortsOf(r) <==> c in cohorts && |KeepMatching(t.orders, c)| >= minOrders {
      if c in CohortsOf(r) {
        KeptCohortIsLarge(cohorts, t, minOrders, c);
      }
      if c in cohorts && |KeepMatching(t.orders, c)| >= minOrders {
        LargeCohortIsKept(cohorts, t, minOrders, c);
      }
    }
  }

  lemma KeptCohortIsLarge(cohorts: seq<seq<(string, Cell)>>, t: Tables, minOrders: int, c: seq<(string, Cell)>)
    requires c in CohortsOf(KeepLarge(AllMetrics(cohorts, t), minOrders))
    ensures c in cohorts && |KeepMatching(t.orders, c)| >= minOrders
  {
    var ms := AllMetrics(cohorts, t);
    var r := KeepLarge(ms, minOrders);
    var k :| 0 <= k < |r| && CohortsOf(r)[k] == c;
    var m := r[k];
    assert m in r;
    assert m in ms && m.orderCount >= minOrders;
    var j :| 0 <= j < |ms| && ms[j] == m;
    assert m == CalculateCohortMetrics(cohorts[j], t);
    assert c == m.cohort == cohorts[j];
  }

  lemma LargeCohortIsKept(cohorts: seq<seq<(string, Cell)>>, t: Tables, minOrders: int, c: seq<(string, Cell)>)
    requires c in cohorts && |KeepMatching(t.orders, c)| >= minOrders
    ensures c in CohortsOf(KeepLarge(AllMetrics(cohorts, t), minOrders))
  {
    var ms := AllMetrics(cohorts, t);
    var r := KeepLarge(ms, minOrders);
    var j :| 0 <= j < |cohorts| && cohorts[j] == c;
    assert ms[j] in ms;
    var k :| 0 <= k < |r| && r[k] == ms[j];
    assert CohortsOf(r)[k] == c;
  }

  /** One more cohort: its metrics are kept when it has enough orders. */
  lemma KeepLargeStep(cohorts: seq<seq<(string, Cell)>>, i: nat, t: Tables, minOrders: int)
    requires i < |cohorts|
    ensures KeepLarge(AllMetrics(cohorts[..i + 1], t), minOrders)
        == KeepLarge(AllMetrics(cohorts[..i], t), minOrders)
           + (if |FilterByCohort(t.orders, cohorts[i])| < minOrders then [] else [CalculateCohortMetrics(cohorts[i], t)])
  {
    var ms := AllMetrics(cohorts[..i + 1], t);
    assert ms[..i] == AllMetrics(cohorts[..i], t);
    assert ms[i] == CalculateCohortMetrics(cohorts[i], t);
    FilterByCohortMatches(t.orders, cohorts[i]);
  }

  /** `calculate_all_cohort_metrics`: skips every cohort with fewer than `minOrders` orders. */
  method CalculateAllCohortMetrics(t: Tables, dimensions: Option<seq<string>>, minOrders: int)
    returns (results: seq<CohortMetrics>)
    ensures results == KeepLarge(AllMetrics(AllCohorts(t.orders, dimensions), t), minOrders)
  {
    var cohorts := GetAllCohorts(t.orders, dimensions);
    results := MetricsOfLargeCohorts(cohorts, t, minOrders);
  }

  /** The loop of `calculate_all_cohort_metrics` over the enumerated cohorts. */
  method MetricsOfLargeCohorts(cohorts: seq<seq<(string, Cell)>>, t: Tables, minOrders: int)
    returns (results: seq<CohortMetrics>)
    ensures results == KeepLarge(AllMetrics(cohorts, t), minOrders)
  {
    results := [];
    var i := 0;
    while i < |cohorts|
      invariant 0 <= i <= |cohorts|
      invariant results == KeepLarge(AllMetrics(cohorts[..i], t), minOrders)
    {
      var cohort := cohorts[i];
      var filtered := FilterByCohort(t.orders, cohort);
      KeepLargeStep(cohorts, i, t, minOrders);
      if |filtered| >= minOrders {
        results := results + [CalculateCohortMetrics(cohort, t)];
      }
      i := i + 1;
    }
    assert cohorts[..i] == cohorts;
  }

  // ---------------------------------------------------------------------------
  // Cohort keys
  // ---------------------------------------------------------------------------

  /** Keys strictly ascending: the order of `sorted(cohort.items())` for distinct keys. */
  ghost predicate KeySorted(s: seq<(string, Cell)>) {
    forall i, j :: 0 <= i < j < |s| ==> Less(s[i].0, s[j].0)
  }

  function InsertByKey(x: (string, Cell), s: seq<(string, Cell)>): (r: seq<(string, Cell)>)
    ensures |r| == |s| + 1
  {
    if |s| == 0 then [x]
    else if Less(x.0, s[0].0) then [x] + s
    else [s[0]] + InsertByKey(x, s[1..])
  }

  /** `sorted(cohort.items())`: tuples compare by key first, and keys are distinct. */
  function SortByKey(c: seq<(string, Cell)>): (r: seq<(string, Cell)>)
    ensures |r| == |c|
  {
    if |c| == 0 then [] else InsertByKey(c[|c| - 1], SortByKey(c[..|c| - 1]))
  }

  lemma {:induction false} InsertByKeySorted(x: (string, Cell), s: seq<(string, Cell)>)
    requires KeySorted(s)
    requires forall i :: 0 <= i < |s| ==> s[i].0 != x.0
    ensures KeySorted(InsertByKey(x, s))
    ensures multiset(InsertByKey(x, s)) == multiset(s) + multiset{x}
  {
    if |s| == 0 {
    } else if Less(x.0, s[0].0) {
      var r := [x] + s;
      forall i, j | 0 <= i < j < |r| ensures Less(r[i].0, r[j].0) {
        if i == 0 && j > 1 { LessTransitive(x.0, s[0].0, s[j - 1].0); }
      }
    } else {
      LessTotal(x.0, s[0].0);
      assert KeySorted(s[1..]) by {
        forall i, j | 0 <= i < j < |s| - 1 ensures Less(s[1..][i].0, s[1..][j].0) {
          assert s[1..][i] == s[i + 1] && s[1..][j] == s[j + 1];
        }
      }
      InsertByKeySorted(x, s[1..]);
      var t := InsertByKey(x, s[1..]);
      var r := [s[0]] + t;
      assert s == [s[0]] + s[1..];
      forall i, j | 0 <= i < j < |r| ensures Less(r[i].0, r[j].0) {
        if i == 0 {
          assert r[j] in multiset(t);
          assert r[j] == x || r[j] in multiset(s[1..]);
          if r[j] != x {
            var k :| 0 <= k < |s[1..]| && s[1..][k] == r[j];
            assert s[k + 1] == r[j];
          }
        }
      }
    }
  }

  lemma {:induction false} SortByKeyFacts(c: seq<(string, Cell)>)
    requires DistinctKeys(c)
    ensures KeySorted(SortByKey(c))
    ensures multiset(SortByKey(c)) == multiset(c)
  {
    if |c| > 0 {
      var init := c[..|c| - 1];
      var x := c[|c| - 1];
      assert c == init + [x];
      DistinctKeysSplit(c);
      assert forall i :: 0 <= i < |init| ==> init[i] == c[i];
      SortByKeyFacts(init);
      var s := SortByKey(init);
      KeyAbsentPermuted(init, s, x.0);
      InsertByKeySorted(x, s);
    }
  }

  /** Without its last item a cohort still has distinct keys, none of them the last key. */
  lemma DistinctKeysSplit(c: seq<(string, Cell)>)
    requires DistinctKeys(c) && |c| > 0
    ensures DistinctKeys(c[..|c| - 1])
    ensures forall i :: 0 <= i < |c| - 1 ==> c[i].0 != c[|c| - 1].0
  {
    var init := c[..|c| - 1];
    forall i, j | 0 <= i < j < |init| ensures init[i].0 != init[j].0 {
      assert init[i] == c[i] && init[j] == c[j];
    }
  }

  /** A key absent from a list is absent from any permutation of it. */
  lemma KeyAbsentPermuted(a: seq<(string, Cell)>, b: seq<(string, Cell)>, key: string)
    requires multiset(b) == multiset(a)
    requires forall i :: 0 <= i < |a| ==> a[i].0 != key
    ensures forall i :: 0 <= i < |b| ==> b[i].0 != key
  {
    forall i | 0 <= i < |b| ensures b[i].0 != key {
      assert b[i] in multiset(a);
      var k :| 0 <= k < |a| && a[k] == b[i];
    }
  }

  lemma KeySortedTail(s: seq<(string, Cell)>)
    requires KeySorted(s) && |s| > 0
    ensures KeySorted(s[1..])
  {
    forall a, b | 0 <= a < b < |s| - 1 ensures Less(s[1..][a].0, s[1..][b].0) {
      assert s[1..][a] == s[a + 1] && s[1..][b] == s[b + 1];
    }
  }

  /** Two non-empty key-sorted lists with the same items start alike. */
  lemma KeySortedHeads(s: seq<(string, Cell)>, t: seq<(string, Cell)>)
    requires KeySorted(s) && KeySorted(t) && multiset(s) == multiset(t) && |s| > 0
    ensures |t| > 0 && s[0] == t[0]
  {
    assert s[0] in multiset(t);
    var j :| 0 <= j < |t| && t[j] == s[0];
    assert t[0] in multiset(s);
    var i :| 0 <= i < |s| && s[i] == t[0];
    if i != 0 && j != 0 {
      assert Less(s[0].0, t[0].0);
      assert Less(t[0].0, s[0].0);
      LessAsymmetric(s[0].0, t[0].0);
      assert false;
    }
  }

  /** Two key-sorted lists with the same items are the same list. */
  lemma {:induction false} KeySortedUnique(s: seq<(string, Cell)>, t: seq<(string, Cell)>)
    requires KeySorted(s) && KeySorted(t) && multiset(s) == multiset(t)
    ensures s == t
  {
    if |s| > 0 {
      KeySortedHeads(s, t);
      assert s == [s[0]] + s[1..] && t == [t[0]] + t[1..];
      assert multiset(s[1..]) == multiset(s) - multiset{s[0]};
      assert multiset(t[1..]) == multiset(t) - multiset{t[0]};
      KeySortedTail(s);
      KeySortedTail(t);
      KeySortedUnique(s[1..], t[1..]);
    } else {
      assert |t| == |multiset(t)| == 0;
    }
  }

  /**
   * The lookup key of a cohort: its items sorted by key. (The source turns
   * that list into its string form, which is one-to-one on such lists.)
   */
  function CohortKey(c: seq<(string, Cell)>): seq<(string, Cell)> {
    SortByKey(c)
  }

  /** The key depends only on the cohort's items, not on their insertion order. */
  lemma CohortKeyOrderFree(c1: seq<(string, Cell)>, c2: seq<(string, Cell)>)
    requires DistinctKeys(c1) && DistinctKeys(c2)
    ensures CohortKey(c1) == CohortKey(c2) <==> multiset(c1) == multiset(c2)
  {
    SortByKeyFacts(c1);
    SortByKeyFacts(c2);
    if multiset(c1) == multiset(c2) {
      KeySortedUnique(SortByKey(c1), SortByKey(c2));
    }
  }

  // ---------------------------------------------------------------------------
  // Regressing cohorts
  // ---------------------------------------------------------------------------

  /**
   * `entry.get(name, 0)`: the metric under its dictionary name, `order_count`
   * included, 0 for a name the entry does not have. None where the entry holds
   * no number (`cohort`, or `mean_stars` of a cohort without ratings); the
   * source fails on arithmetic with such a value.
   */
  function MetricGet(e: CohortMetrics, name: string): Option<real> {
    var m := e.metrics;
    if name == "cx_score" then Some(m.cxScore)
    else if name == "on_time_rate" then Some(m.onTimeRate)
    else if name == "on_time_score" then Some(m.onTimeScore)
    else if name == "eta_mean_absolute_error" then Some(m.etaMeanAbsoluteError)
    else if name == "eta_mean_error" then Some(m.etaMeanError)
    else if name == "item_accuracy" then Some(m.itemAccuracy)
    else if name == "item_accuracy_score" then Some(m.itemAccuracyScore)
    else if name == "cancellation_rate" then Some(m.cancellationRate)
    else if name == "cancellation_score" then Some(m.cancellationScore)
    else if name == "refund_rate" then Some(m.refundRate)
    else if name == "refund_score" then Some(m.refundScore)
    else if name == "support_rate" then Some(m.supportRate)
    else if name == "support_score" then Some(m.supportScore)
    else if name == "rating_proxy" then Some(m.ratingProxy)
    else if name == "rating_score" then Some(m.ratingScore)
    else if name == "mean_stars" then m.meanStars
    else if name == "order_count" then Some(e.orderCount as real)
    else if name == "cohort" then None
    else Some(0.0)
  }

  /** Baseline entries by cohort key; a later entry with the same key replaces an earlier one. */
  function BaselineLookup(baseline: seq<CohortMetrics>): map<seq<(string, Cell)>, CohortMetrics> {
    if |baseline| == 0 then map[]
    else
      var last := baseline[|baseline| - 1];
      BaselineLookup(baseline[..|baseline| - 1])[CohortKey(last.cohort) := last]
  }

  /** A key is present iff some entry has it, and it maps to the last such entry. */
  lemma BaselineLookupLastWins(baseline: seq<CohortMetrics>, key: seq<(string, Cell)>)
    ensures key in BaselineLookup(baseline) <==> exists j :: 0 <= j < |baseline| && CohortKey(baseline[j].cohort) == key
    ensures key in BaselineLookup(baseline) ==>
              exists j :: 0 <= j < |baseline| && BaselineLookup(baseline)[key] == baseline[j]
                          && CohortKey(baseline[j].cohort) == key
                          && forall j' :: j < j' < |baseline| ==> CohortKey(baseline[j'].cohort) != key
  {
    BaselineLookupKeys(baseline, key);
    if key in BaselineLookup(baseline) {
      var j := BaselineLookupLast(baseline, key);
    }
  }

  lemma {:induction false} BaselineLookupKeys(baseline: seq<CohortMetrics>, key: seq<(string, Cell)>)
    ensures key in BaselineLookup(baseline) <==> exists j :: 0 <= j < |baseline| && CohortKey(baseline[j].cohort) == key
  {
    if |baseline| > 0 {
      var n := |baseline| - 1;
      var init := baseline[..n];
      BaselineLookupKeys(init, key);
      if key in BaselineLookup(init) {
        var j :| 0 <= j < |init| && CohortKey(init[j].cohort) == key;
        assert baseline[j] == init[j];
      }
      if exists j :: 0 <= j < |baseline| && CohortKey(baseline[j].cohort) == key {
        var j :| 0 <= j < |baseline| && CohortKey(baseline[j].cohort) == key;
        if j < n {
          assert init[j] == baseline[j];
        }
      }
    }
  }

  /** The entry found for a key is the last baseline entry with that key. */
  lemma {:induction false} BaselineLookupLast(baseline: seq<CohortMetrics>, key: seq<(string, Cell)>) returns (j: nat)
    requires key in BaselineLookup(baseline)
    ensures j < |baseline| && BaselineLookup(baseline)[key] == baseline[j] && CohortKey(baseline[j].cohort) == key
    ensures forall j' :: j < j' < |baseline| ==> CohortKey(baseline[j'].cohort) != key
  {
    var n := |baseline| - 1;
    var init := baseline[..n];
    if CohortKey(baseline[n].cohort) == key {
      j := n;
    } else {
      j := BaselineLookupLast(init, key);
      assert init[j] == baseline[j];
      forall j' | j < j' < |baseline| ensures CohortKey(baseline[j'].cohort) != key {
        if j' < n {
          assert init[j'] == baseline[j'];
        }
      }
    }
  }

  /** One regressing cohort: values of both periods and the change. */
  datatype Regression = Regression(
    cohort: seq<(string, Cell)>,
    baselineValue: real,
    currentValue: real,
    delta: real,
    deltaPct: real,
    orderCount: int)

  /** `delta / baseline * 100` for a positive baseline, else 0. */
  function DeltaPct(delta: real, baselineValue: real): real {
    if baselineValue > 0.0 then delta / baselineValue * 100.0 else 0.0
  }

  /** The current entry, worth `c` against a baseline worth `b`: kept when the metric fell. */
  function Compare(current: CohortMetrics, b: real, c: real): (r: Option<Regression>)
    ensures r.Some? <==> c < b
    ensures r.Some? ==> && r.value.delta < 0.0 && r.value.cohort == current.cohort
                        && r.value.baselineValue == b && r.value.currentValue == c
                        && r.value.delta == r.value.currentValue - r.value.baselineValue
                        && r.value.orderCount == current.orderCount
  {
    var delta := c - b;
    if delta < 0.0 then Some(Regression(current.cohort, b, c, delta, DeltaPct(delta, b), current.orderCount))
    else None
  }

  /** The entry's cohort has a baseline, and one of the two values is not a number: the subtraction fails. */
  ghost predicate Unusable(lookup: map<seq<(string, Cell)>, CohortMetrics>, e: CohortMetrics, metric: string) {
    var key := CohortKey(e.cohort);
    key in lookup && (MetricGet(lookup[key], metric).None? || MetricGet(e, metric).None?)
  }

  /** The entry's cohort has a baseline, both values are numbers, and the current one is lower. */
  ghost predicate Falls(lookup: map<seq<(string, Cell)>, CohortMetrics>, e: CohortMetrics, metric: string) {
    var key := CohortKey(e.cohort);
    && key in lookup && MetricGet(lookup[key], metric).Some? && MetricGet(e, metric).Some?
    && MetricGet(e, metric).value < MetricGet(lookup[key], metric).value
  }

  /** The regression a falling entry contributes. */
  ghost function RegressionFor(lookup: map<seq<(string, Cell)>, CohortMetrics>, e: CohortMetrics, metric: string)
    : Regression
    requires Falls(lookup, e, metric)
  {
    var key := CohortKey(e.cohort);
    Compare(e, MetricGet(lookup[key], metric).value, MetricGet(e, metric).value).value
  }

  /**
   * Reference: the regressions of the current entries that have a baseline,
   * in current order; None where the source raises, on the first entry with
   * a baseline whose value (or the baseline's) is not a number.
   */
  function Regressions(lookup: map<seq<(string, Cell)>, CohortMetrics>, current: seq<CohortMetrics>, metric: string)
    : (r: Option<seq<Regression>>)
    ensures r.Some? ==> |r.value| <= |current|
  {
    if |current| == 0 then Some([])
    else
      var n := |current| - 1;
      var before := Regressions(lookup, current[..n], metric);
      var cur := current[n];
      var key := CohortKey(cur.cohort);
      if before.None? then None
      else if key !in lookup then before
      else if MetricGet(lookup[key], metric).None? || MetricGet(cur, metric).None? then None
      else
        var r := Compare(cur, MetricGet(lookup[key], metric).value, MetricGet(cur, metric).value);
        if r.Some? then Some(before.value + [r.value]) else before
  }

  /** Extending the current entries by one: a failure stays, otherwise that entry is skipped, fails or adds its regression. */
  lemma RegressionsSnoc(lookup: map<seq<(string, Cell)>, CohortMetrics>, current: seq<CohortMetrics>,
                        metric: string, i: nat)
    requires i < |current|
    ensures var key := CohortKey(current[i].cohort);
      var before := Regressions(lookup, current[..i], metric);
      Regressions(lookup, current[..i + 1], metric)
      == if before.None? then None
         else if key !in lookup then before
         else if MetricGet(lookup[key], metric).None? || MetricGet(current[i], metric).None? then None
         else
           var r := Compare(current[i], MetricGet(lookup[key], metric).value, MetricGet(current[i], metric).value);
           if r.Some? then Some(before.value + [r.value]) else before
  {
    var p := current[..i + 1];
    assert p[..i] == current[..i];
    assert p[i] == current[i];
  }

  /** The source raises exactly when some current entry with a baseline has a value that is not a number. */
  lemma {:induction false} RegressionsFail(lookup: map<seq<(string, Cell)>, CohortMetrics>,
                                           current: seq<CohortMetrics>, metric: string)
    ensures Regressions(lookup, current, metric).None? <==>
              exists k :: 0 <= k < |current| && Unusable(lookup, current[k], metric)
  {
    if |current| > 0 {
      var n := |current| - 1;
      var init := current[..n];
      RegressionsFail(lookup, init, metric);
      assert forall k :: 0 <= k < n ==> init[k] == current[k];
    }
  }

  /** Every regression fell and is the one of a falling current entry. */
  lemma {:induction false} RegressionsSound(lookup: map<seq<(string, Cell)>, CohortMetrics>,
                                            current: seq<CohortMetrics>, metric: string)
    ensures Regressions(lookup, current, metric).Some? ==>
              forall x :: x in Regressions(lookup, current, metric).value ==>
                x.delta < 0.0
                && exists k :: 0 <= k < |current| && Falls(lookup, current[k], metric)
                               && x == RegressionFor(lookup, current[k], metric)
  {
    if |current| > 0 && Regressions(lookup, current, metric).Some? {
      var n := |current| - 1;
      var init := current[..n];
      RegressionsSound(lookup, init, metric);
      assert forall k :: 0 <= k < n ==> init[k] == current[k];
    }
  }

  /** Every falling current entry has its regression listed. */
  lemma {:induction false} RegressionsComplete(lookup: map<seq<(string, Cell)>, CohortMetrics>,
                                               current: seq<CohortMetrics>, metric: string)
    ensures Regressions(lookup, current, metric).Some? ==>
              forall k :: 0 <= k < |current| && Falls(lookup, current[k], metric) ==>
                RegressionFor(lookup, current[k], metric) in Regressions(lookup, current, metric).value
  {
    if |current| > 0 && Regressions(lookup, current, metric).Some? {
      var n := |current| - 1;
      var init := current[..n];
      RegressionsComplete(lookup, init, metric);
      assert forall k :: 0 <= k < n ==> init[k] == current[k];
      var found := Regressions(lookup, current, metric).value;
      var before := Regressions(lookup, init, metric).value;
      assert forall x :: x in before ==> x in found;
      if Falls(lookup, current[n], metric) {
        assert RegressionFor(lookup, current[n], metric) == found[|found| - 1];
      }
    }
  }

  /** Sort key for `sort(key=delta)`: ascending delta is descending negated delta. */
  function NegDelta(r: Regression): seq<real> {
    [-r.delta]
  }

  /**
   * `find_top_regressing_cohorts`: the cohorts of the current period that
   * have a baseline entry (the last one with the same key) and whose metric
   * fell, most negative change first (stable on ties), cut to `topN`; None
   * where the source raises on a value that is not a number.
   */
  method FindTopRegressingCohorts(baseline: seq<CohortMetrics>, current: seq<CohortMetrics>, metric: string, topN: int)
    returns (regressing: Option<seq<Regression>>)
    ensures regressing == TopRegressing(baseline, current, metric, topN)
  {
    var lookup: map<seq<(string, Cell)>, CohortMetrics> := map[];
    var i := 0;
    while i < |baseline|
      invariant 0 <= i <= |baseline|
      invariant lookup == BaselineLookup(baseline[..i])
    {
      assert baseline[..i + 1][..i] == baseline[..i];
      lookup := lookup[CohortKey(baseline[i].cohort) := baseline[i]];
      i := i + 1;
    }
    assert baseline[..i] == baseline;
    var found: seq<Regression> := [];
    i := 0;
    while i < |current|
      invariant 0 <= i <= |current|
      invariant Regressions(lookup, current[..i], metric) == Some(found)
    {
      RegressionsSnoc(lookup, current, metric, i);
      var key := CohortKey(current[i].cohort);
      if key in lookup {
        var b := MetricGet(lookup[key], metric);
        var c := MetricGet(current[i], metric);
        if b.None? || c.None? {
          RegressionsFail(lookup, current[..i + 1], metric);
          RegressionsFail(lookup, current, metric);
          assert current[..i + 1][i] == current[i];
          return None;
        }
        var r := Compare(current[i], b.value, c.value);
        if r.Some? {
          found := found + [r.value];
        }
      }
      i := i + 1;
    }
    assert current[..i] == current;
    regressing := Some(Take(SortDesc(found, NegDelta), topN));
  }

  /** Reference result: the regressions sorted ascending by delta (stable), cut to `topN`; None on a failure. */
  function TopRegressing(baseline: seq<CohortMetrics>, current: seq<CohortMetrics>, metric: string, topN: int)
    : Option<seq<Regression>>
  {
    match Regressions(BaselineLookup(baseline), current, metric)
    case None => None
    case Some(found) => Some(Take(SortDesc(found, NegDelta), topN))
  }

  /** The cohort was measured in both periods. */
  ghost predicate InBothPeriods(c: seq<(string, Cell)>, baseline: seq<CohortMetrics>, current: seq<CohortMetrics>) {
    (exists k :: 0 <= k < |current| && current[k].cohort == c)
    && exists j :: 0 <= j < |baseline| && CohortKey(baseline[j].cohort) == CohortKey(c)
  }

  /** A ranked cut by `NegDelta`: no regression left out has a more negative delta than one kept. */
  lemma RankedCutByDelta(r: seq<Regression>, found: seq<Regression>, topN: int)
    requires RankedCut(r, found, topN, NegDelta)
    ensures forall x, y :: x in found && x !in r && y in r ==> y.delta <= x.delta
  {
    forall x, y | x in found && x !in r && y in r ensures y.delta <= x.delta {
      assert !LexGt(NegDelta(x), NegDelta(y));
    }
  }

  /**
   * None exactly when a current entry with a baseline has a value that is not
   * a number. Otherwise only regressions (delta strictly negative) of cohorts
   * present in both periods, ascending by delta, `min(topN, |found|)` of
   * them; and a falling cohort left out never fell further than one returned.
   */
  lemma TopRegressingFacts(baseline: seq<CohortMetrics>, current: seq<CohortMetrics>, metric: string, topN: int)
    ensures TopRegressing(baseline, current, metric, topN).None? <==>
              exists k :: 0 <= k < |current| && Unusable(BaselineLookup(baseline), current[k], metric)
    ensures TopRegressing(baseline, current, metric, topN).Some? ==>
              RankedCut(TopRegressing(baseline, current, metric, topN).value,
                        Regressions(BaselineLookup(baseline), current, metric).value, topN, NegDelta)
    ensures TopRegressing(baseline, current, metric, topN).Some? ==>
              forall x :: x in TopRegressing(baseline, current, metric, topN).value ==>
                x.delta < 0.0 && InBothPeriods(x.cohort, baseline, current)
    ensures TopRegressing(baseline, current, metric, topN).Some? ==>
              forall k, y :: 0 <= k < |current| && Falls(BaselineLookup(baseline), current[k], metric)
                             && RegressionFor(BaselineLookup(baseline), current[k], metric) !in TopRegressing(baseline, current, metric, topN).value
                             && y in TopRegressing(baseline, current, metric, topN).value
                             ==> y.delta <= RegressionFor(BaselineLookup(baseline), current[k], metric).delta
  {
    var lookup := BaselineLookup(baseline);
    RegressionsFail(lookup, current, metric);
    RegressionsSound(lookup, current, metric);
    RegressionsComplete(lookup, current, metric);
    if Regressions(lookup, current, metric).Some? {
      var found := Regressions(lookup, current, metric).value;
      RankedCutOfSort(found, topN, NegDelta);
      var r := TopRegressing(baseline, current, metric, topN).value;
      RankedCutByDelta(r, found, topN);
      forall x | x in r ensures x.delta < 0.0 && InBothPeriods(x.cohort, baseline, current) {
        assert x in found;
        var k :| 0 <= k < |current| && Falls(lookup, current[k], metric) && x == RegressionFor(lookup, current[k], metric);
        BaselineLookupLastWins(baseline, CohortKey(x.cohort));
      }
    }
  }

  // ---------------------------------------------------------------------------
  // Time window
  // ---------------------------------------------------------------------------

  /** The orders placed in `[start, end)`, in order. */
  function SliceByTimeWindow(orders: seq<Order>, start: int, end: int): (r: seq<Order>)
    ensures |r| <= |orders|
    ensures forall o :: o in r <==> o in orders && start <= o.orderTime < end
  {
    if |orders| == 0 then []
    else
      var o := orders[|orders| - 1];
      SliceByTimeWindow(orders[..|orders| - 1], start, end) + (if start <= o.orderTime < end then [o] else [])
  }
}
