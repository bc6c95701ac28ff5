/**
 * The hypothesis catalog of root-cause analysis: five fixed hypotheses,
 * one per category, and the mapping from a regressed metric to the
 * categories worth testing.
 */
module Hypotheses {
  import opened Wrappers
  import opened Lists

  datatype Hypothesis = Hypothesis(
    hypothesisId: string,
    name: string,
    category: string,
    description: string,
    featuresToCheck: seq<string>,
    expectedImpact: string,
    testMethods: seq<string>)

  const Categories: seq<string> := ["supply", "merchant", "policy", "inventory", "model"]

  /** The catalog as a dictionary's items in insertion order. */
  const Catalog: seq<(string, Hypothesis)> := [
    ("low_dasher_availability", Hypothesis(
      "supply_001", "Low Dasher Availability", "supply",
      "Low dasher availability leads to longer assignment times and lateness",
      ["dasher_wait", "distance", "actual_eta"],
      "Increased dasher_wait times, longer actual_eta, higher lateness",
      ["shap", "correlation", "temporal"])),
    ("prep_time_drift", Hypothesis(
      "merchant_001", "Merchant Prep-Time Drift", "merchant",
      "Merchant preparation time has increased, causing ETA misses",
      ["merchant_prep_time", "actual_eta", "promised_eta"],
      "Increased merchant_prep_time, actual_eta > promised_eta",
      ["shap", "diff_in_diff", "temporal"])),
    ("batching_threshold_increase", Hypothesis(
      "policy_001", "Batching Threshold Increase", "policy",
      "Batching threshold was increased, causing longer wait times and lateness",
      ["batched_flag", "dasher_wait", "actual_eta", "canceled_flag"],
      "Higher batching rate, increased dasher_wait, lateness, cancellations",
      ["diff_in_diff", "shap", "correlation"])),
    ("inventory_degradation", Hypothesis(
      "inventory_001", "Inventory Availability Degradation", "inventory",
      "Inventory in-stock probability decreased, causing substitutions and refunds",
      ["in_stock_prob", "substituted_flag", "missing_flag", "refund_amount"],
      "Lower in_stock_prob, higher substitutions, missing items, refunds",
      ["shap", "temporal", "correlation"])),
    ("eta_model_bias", Hypothesis(
      "model_001", "ETA Model Bias", "model",
      "ETA model has systematic bias, causing consistent over/under-estimation",
      ["promised_eta", "actual_eta", "eta_error"],
      "Systematic bias in promised_eta vs actual_eta",
      ["temporal", "correlation", "statistical"]))]

  /** `get_all_hypotheses`: the values in catalog order. */
  function AllHypotheses(): (hs: seq<Hypothesis>)
    ensures |hs| == |Catalog| && forall k :: 0 <= k < |Catalog| ==> hs[k] == Catalog[k].1
  {
    seq(|Catalog|, k requires 0 <= k < |Catalog| => Catalog[k].1)
  }

  /** The value stored under a key of the catalog's items, or None. */
  function Get(items: seq<(string, Hypothesis)>, key: string): (r: Option<Hypothesis>)
    ensures r.None? <==> forall k :: 0 <= k < |items| ==> items[k].0 != key
    ensures r.Some? ==> (key, r.value) in items
  {
    if |items| == 0 then None
    else if items[0].0 == key then Some(items[0].1)
    else
      assert forall k :: 0 < k < |items| ==> items[k] == items[1..][k - 1];
      Get(items[1..], key)
  }

  /** `get_hypothesis`: a lookup by dictionary key. */
  function GetHypothesis(key: string): Option<Hypothesis> {
    Get(Catalog, key)
  }

  /**
   * The shape of the catalog: five entries, one per category in order, and
   * the first letters that tell keys and ids apart.
   */
  lemma CatalogShape()
    ensures |Catalog| == 5
    ensures forall k :: 0 <= k < 5 ==> Catalog[k].1.category == Categories[k]
    ensures forall k :: 0 <= k < 5 ==>
              |Catalog[k].0| > 1 && Catalog[k].0[0] == "lpbie"[k] && Catalog[k].0[1] == "orant"[k]
              && Catalog[k].0[|Catalog[k].0| - 1] != '1'
    ensures forall k :: 0 <= k < 5 ==>
              |Catalog[k].1.hypothesisId| > 1 && Catalog[k].1.hypothesisId[0] == "smpim"[k]
              && Catalog[k].1.hypothesisId[1] == "ueono"[k]
              && Catalog[k].1.hypothesisId[|Catalog[k].1.hypothesisId| - 1] == '1'
    ensures forall k :: 0 <= k < 5 ==>
              |Categories[k]| > 1 && Categories[k][0] == "smpim"[k] && Categories[k][1] == "ueono"[k]
  {
    CatalogCategories();
    CatalogKeyLetters();
    CatalogIdLetters();
    CategoryLetters();
  }

  lemma CatalogCategories()
    ensures |Catalog| == 5
    ensures forall k :: 0 <= k < 5 ==> Catalog[k].1.category == Categories[k]
  {
  }

  lemma CatalogKeyLetters()
    ensures |Catalog| == 5
    ensures forall k :: 0 <= k < 5 ==>
              |Catalog[k].0| > 1 && Catalog[k].0[0] == "lpbie"[k] && Catalog[k].0[1] == "orant"[k]
              && Catalog[k].0[|Catalog[k].0| - 1] != '1'
  {
  }

  lemma CatalogIdLetters()
    ensures |Catalog| == 5
    ensures forall k :: 0 <= k < 5 ==>
              |Catalog[k].1.hypothesisId| > 1 && Catalog[k].1.hypothesisId[0] == "smpim"[k]
              && Catalog[k].1.hypothesisId[1] == "ueono"[k]
              && Catalog[k].1.hypothesisId[|Catalog[k].1.hypothesisId| - 1] == '1'
  {
  }

  lemma CategoryLetters()
    ensures forall k :: 0 <= k < 5 ==>
              |Categories[k]| > 1 && Categories[k][0] == "smpim"[k] && Categories[k][1] == "ueono"[k]
  {
  }

  /**
   * Five entries with distinct keys, distinct ids and distinct categories;
   * the lookup answers to the keys and not to the ids.
   */
  lemma CatalogFacts()
    ensures |Catalog| == 5
    ensures forall i, j :: 0 <= i < j < |Catalog| ==> Catalog[i].0 != Catalog[j].0
    ensures forall i, j :: 0 <= i < j < |Catalog| ==> Catalog[i].1.hypothesisId != Catalog[j].1.hypothesisId
    ensures Distinct(Categories)
    ensures forall k :: 0 <= k < |Catalog| ==> Catalog[k].1.category == Categories[k]
    ensures Distinct(AllHypotheses())
  {
    CatalogShape();
    CatalogKeysDistinct();
    CatalogIdsDistinct();
    CategoriesDistinct();
  }

  lemma CatalogKeysDistinct()
    ensures forall i, j :: 0 <= i < j < |Catalog| ==> Catalog[i].0 != Catalog[j].0
  {
    CatalogKeyLetters();
    forall i, j | 0 <= i < j < 5 ensures Catalog[i].0 != Catalog[j].0 {
      assert Catalog[i].0[0] != Catalog[j].0[0];
    }
  }

  lemma CatalogIdsDistinct()
    ensures forall i, j :: 0 <= i < j < |Catalog| ==> Catalog[i].1.hypothesisId != Catalog[j].1.hypothesisId
  {
    CatalogIdLetters();
    forall i, j | 0 <= i < j < 5 ensures Catalog[i].1.hypothesisId != Catalog[j].1.hypothesisId {
      assert Catalog[i].1.hypothesisId[0] != Catalog[j].1.hypothesisId[0]
             || Catalog[i].1.hypothesisId[1] != Catalog[j].1.hypothesisId[1];
    }
  }

  lemma CategoriesDistinct()
    ensures Distinct(Categories)
  {
    forall i, j | 0 <= i < j < |Categories| ensures Categories[i] != Categories[j] {
      assert Categories[i][0] != Categories[j][0] || Categories[i][1] != Categories[j][1];
    }
  }

  /** In a list of items with distinct keys, each key finds its own value. */
  lemma {:induction false} GetDistinct(items: seq<(string, Hypothesis)>, k: nat)
    requires k < |items|
    requires forall i, j :: 0 <= i < j < |items| ==> items[i].0 != items[j].0
    ensures Get(items, items[k].0) == Some(items[k].1)
  {
    if k > 0 {
      assert items[0].0 != items[k].0;
      assert items[1..][k - 1] == items[k];
      GetDistinct(items[1..], k - 1);
    }
  }

  /** `get_hypothesis` finds every entry by its key, and nothing by a hypothesis id. */
  lemma GetHypothesisFacts()
    ensures forall k :: 0 <= k < |Catalog| ==> GetHypothesis(Catalog[k].0) == Some(Catalog[k].1)
    ensures forall k :: 0 <= k < |Catalog| ==> GetHypothesis(Catalog[k].1.hypothesisId).None?
  {
    CatalogFacts();
    CatalogShape();
    forall k | 0 <= k < 5 ensures GetHypothesis(Catalog[k].0) == Some(Catalog[k].1) {
      GetDistinct(Catalog, k);
    }
    forall k, j | 0 <= k < 5 && 0 <= j < 5 ensures Catalog[j].0 != Catalog[k].1.hypothesisId {
      var key, id := Catalog[j].0, Catalog[k].1.hypothesisId;
      assert key[|key| - 1] != id[|id| - 1];
    }
  }

  /** The hypotheses of `hs` with the given category, in order. */
  function OfCategory(hs: seq<Hypothesis>, category: string): seq<Hypothesis> {
    Filter(hs, (h: Hypothesis) => h.category == category)
  }

  /** `get_hypotheses_by_category`: the catalog entries of that category, in catalog order. */
  function ByCategory(category: string): seq<Hypothesis> {
    OfCategory(AllHypotheses(), category)
  }

  /** Categories to test for a regressed metric; none for an unlisted metric. */
  function CategoriesFor(metric: string): seq<string> {
    if metric == "cx_score" then ["supply", "merchant", "policy", "inventory", "model"]
    else if metric == "on_time_rate" then ["supply", "merchant", "policy", "model"]
    else if metric == "cancellation_rate" then ["supply", "merchant", "policy"]
    else if metric == "refund_rate" then ["inventory", "merchant"]
    else if metric == "item_accuracy" then ["inventory", "merchant"]
    else []
  }

  /** The hypotheses of `hs` of each category, one category after another. */
  function OfCategories(hs: seq<Hypothesis>, categories: seq<string>): seq<Hypothesis> {
    if |categories| == 0 then [] else OfCategory(hs, categories[0]) + OfCategories(hs, categories[1..])
  }

  /** `get_relevant_hypotheses`; the affected cohorts play no part. */
  function RelevantHypotheses(metric: string, affectedCohorts: seq<seq<(string, string)>>): seq<Hypothesis> {
    OfCategories(AllHypotheses(), CategoriesFor(metric))
  }

  /** The hypotheses for a list of categories are those of `hs` with one of those categories. */
  lemma {:induction false} OfCategoriesMembers(hs: seq<Hypothesis>, categories: seq<string>)
    ensures forall h :: h in OfCategories(hs, categories) <==> h in hs && h.category in categories
  {
    if |categories| > 0 {
      OfCategoriesMembers(hs, categories[1..]);
      assert forall c :: c in categories <==> c == categories[0] || c in categories[1..];
    }
  }

  /** Distinct hypotheses and distinct categories give no hypothesis twice. */
  lemma {:induction false} OfCategoriesDistinct(hs: seq<Hypothesis>, categories: seq<string>)
    requires Distinct(hs) && Distinct(categories)
    ensures Distinct(OfCategories(hs, categories))
  {
    if |categories| > 0 {
      var first := OfCategory(hs, categories[0]);
      var rest := OfCategories(hs, categories[1..]);
      assert Distinct(categories[1..]);
      OfCategoriesDistinct(hs, categories[1..]);
      OfCategoriesMembers(hs, categories[1..]);
      FilterDistinct(hs, (h: Hypothesis) => h.category == categories[0]);
      assert categories[0] !in categories[1..];
      var s := first + rest;
      forall i, j | 0 <= i < j < |s| ensures s[i] != s[j] {
        if j < |first| {
        } else if i >= |first| {
          assert s[i] == rest[i - |first|] && s[j] == rest[j - |first|];
        } else {
          assert s[i] in first && s[j] in rest;
        }
      }
    }
  }

  /** When no two hypotheses share a category, each category holds exactly its one hypothesis. */
  lemma OfCategoryOne(hs: seq<Hypothesis>, k: nat)
    requires k < |hs|
    requires forall i, j :: 0 <= i < j < |hs| ==> hs[i].category != hs[j].category
    ensures OfCategory(hs, hs[k].category) == [hs[k]]
  {
    FilterOne(hs, (h: Hypothesis) => h.category == hs[k].category, k);
  }

  /**
   * `get_hypotheses_by_category` returns exactly the catalog entries of the
   * category: the one hypothesis of each of the five categories, and
   * nothing for any other category.
   */
  lemma ByCategoryFacts(category: string)
    ensures forall h :: h in ByCategory(category) <==> h in AllHypotheses() && h.category == category
    ensures forall k :: 0 <= k < 5 && category == Categories[k] ==> ByCategory(category) == [AllHypotheses()[k]]
    ensures category !in Categories ==> ByCategory(category) == []
  {
    var all := AllHypotheses();
    AllHypothesesFacts();
    forall k | 0 <= k < 5 && category == Categories[k]
      ensures ByCategory(category) == [all[k]]
    {
      OfCategoryOne(all, k);
    }
    if category !in Categories {
      FilterNone(all, (h: Hypothesis) => h.category == category);
    }
  }

  /** The categories of a list of hypotheses, in order. */
  function CategoriesOf(hs: seq<Hypothesis>): (cs: seq<string>)
    ensures |cs| == |hs| && forall k :: 0 <= k < |hs| ==> cs[k] == hs[k].category
  {
    seq(|hs|, k requires 0 <= k < |hs| => hs[k].category)
  }

  /** Asking for every category of a suffix, in order, gives back that suffix. */
  lemma {:induction false} OfOwnCategories(hs: seq<Hypothesis>, n: nat)
    requires n <= |hs|
    requires forall i, j :: 0 <= i < j < |hs| ==> hs[i].category != hs[j].category
    ensures OfCategories(hs, CategoriesOf(hs[n..])) == hs[n..]
    decreases |hs| - n
  {
    if n < |hs| {
      var cs := CategoriesOf(hs[n..]);
      assert cs[1..] == CategoriesOf(hs[n + 1..]);
      OfCategoryOne(hs, n);
      OfOwnCategories(hs, n + 1);
      assert hs[n..] == [hs[n]] + hs[n + 1..];
    }
  }

  /** The catalog's values, each with its own category in category order. */
  lemma AllHypothesesFacts()
    ensures |AllHypotheses()| == 5
    ensures forall k :: 0 <= k < 5 ==> AllHypotheses()[k].category == Categories[k]
    ensures forall i, j :: 0 <= i < j < 5 ==> AllHypotheses()[i].category != AllHypotheses()[j].category
  {
    CatalogFacts();
  }

  /** `cx_score` asks for every category, and so gets the whole catalog in order. */
  lemma RelevantForCxScore(affectedCohorts: seq<seq<(string, string)>>)
    ensures RelevantHypotheses("cx_score", affectedCohorts) == AllHypotheses()
  {
    var all := AllHypotheses();
    AllHypothesesFacts();
    assert CategoriesFor("cx_score") == CategoriesOf(all[0..]);
    OfOwnCategories(all, 0);
  }

  /** `refund_rate` asks for inventory and then merchant. */
  lemma RelevantForRefundRate(affectedCohorts: seq<seq<(string, string)>>)
    ensures RelevantHypotheses("refund_rate", affectedCohorts) == [Catalog[3].1, Catalog[1].1]
  {
    var all := AllHypotheses();
    AllHypothesesFacts();
    var cats := CategoriesFor("refund_rate");
    assert cats == [all[3].category, all[1].category];
    OfCategoryOne(all, 3);
    OfCategoryOne(all, 1);
    assert cats[1..] == [all[1].category];
    assert OfCategories(all, cats[1..]) == [all[1]];
  }

  /**
   * An unlisted metric yields nothing; `cx_score` yields the whole catalog,
   * `refund_rate` the inventory and then the merchant hypothesis; every
   * result holds each hypothesis at most once and only those whose
   * category is mapped from the metric.
   */
  lemma RelevantHypothesesFacts(metric: string, affectedCohorts: seq<seq<(string, string)>>)
    ensures CategoriesFor(metric) == [] ==> RelevantHypotheses(metric, affectedCohorts) == []
    ensures metric == "cx_score" ==> RelevantHypotheses(metric, affectedCohorts) == AllHypotheses()
    ensures metric == "refund_rate" ==> RelevantHypotheses(metric, affectedCohorts) == [Catalog[3].1, Catalog[1].1]
    ensures Distinct(RelevantHypotheses(metric, affectedCohorts))
    ensures forall h :: h in RelevantHypotheses(metric, affectedCohorts) <==>
              h in AllHypotheses() && h.category in CategoriesFor(metric)
  {
    var all := AllHypotheses();
    var cats := CategoriesFor(metric);
    AllHypothesesFacts();
    assert Distinct(all);
    assert Distinct(cats);
    OfCategoriesDistinct(all, cats);
    OfCategoriesMembers(all, cats);
    if metric == "cx_score" {
      RelevantForCxScore(affectedCohorts);
    }
    if metric == "refund_rate" {
      RelevantForRefundRate(affectedCohorts);
    }
  }
}
