/**
 * The action engine: each of the top three root causes whose hypothesis
 * has an action template yields one recommended action, with its CX
 * impact scaled by the cause's confidence; the actions are ranked by
 * expected CX impact.
 */
module Actions {
  import opened Wrappers
  import opened Lists
  import opened Strings
  import Hypotheses

  /** The keys of the template table. */
  datatype TemplateKey = BatchingThreshold | EtaBuffer | SkuSuppression | PrepTimeModel | DasherAssignment

  /** An action template; `affectedCohortsDefault` is kept although no action uses it. */
  datatype Template = Template(
    name: string,
    description: string,
    implementation: string,
    complexity: string,
    rolloutTime: string,
    baseCxImpact: real,
    baseEfficiencyImpact: real,
    affectedCohortsDefault: seq<string>)

  /** The dictionary key of a template. */
  function KeyName(k: TemplateKey): string {
    match k
    case BatchingThreshold => "batching_threshold"
    case EtaBuffer => "eta_buffer"
    case SkuSuppression => "sku_suppression"
    case PrepTimeModel => "prep_time_model"
    case DasherAssignment => "dasher_assignment"
  }

  /** The name, description and implementation note of a template. */
  function Texts(k: TemplateKey): (string, string, string) {
    match k
    case BatchingThreshold => (
      "Reduce Batching Threshold for Fragile SKUs During Peak Hours",
      "Reduce batching threshold from current value to 2 for fragile SKUs during peak hours",
      "Policy change: Update batching threshold parameter for specified cohorts")
    case EtaBuffer => (
      "Increase ETA Buffer for Stores with Prep-Time Drift",
      "Add buffer time to promised ETA for stores showing prep-time drift",
      "Model update: Add dynamic buffer based on prep-time trends")
    case SkuSuppression => (
      "Suppress Low-Confidence SKUs from Search/Browse",
      "Hide SKUs with low in-stock probability from search results",
      "Search filter: Add in_stock_prob threshold to search logic")
    case PrepTimeModel => (
      "Update Prep-Time Model for Affected Stores",
      "Retrain prep-time prediction model using recent data",
      "Model retraining: Update prep-time model with latest data")
    case DasherAssignment => (
      "Optimize Dasher Assignment Algorithm",
      "Improve dasher assignment to reduce wait times",
      "Algorithm update: Enhance assignment logic")
  }

  /** The complexity and rollout time of a template. */
  function Profile(k: TemplateKey): (string, string) {
    match k
    case BatchingThreshold => ("low", "1 day")
    case EtaBuffer => ("medium", "2 days")
    case SkuSuppression => ("low", "1 day")
    case PrepTimeModel => ("medium", "3 days")
    case DasherAssignment => ("high", "5 days")
  }

  /** The base CX impact and base efficiency impact of a template. */
  function Impacts(k: TemplateKey): (real, real) {
    match k
    case BatchingThreshold => (12.0, -5.0)
    case EtaBuffer => (4.0, 0.0)
    case SkuSuppression => (2.0, -3.0)
    case PrepTimeModel => (6.0, 0.0)
    case DasherAssignment => (8.0, 2.0)
  }

  /** The default cohorts a template lists. */
  function DefaultCohorts(k: TemplateKey): seq<string> {
    match k
    case BatchingThreshold => ["grocery", "dinner"]
    case EtaBuffer => ["stores_with_drift"]
    case SkuSuppression => ["all"]
    case PrepTimeModel => ["affected_stores"]
    case DasherAssignment => ["all"]
  }

  /** `_create_action_templates`, one entry per key. */
  function TemplateFor(k: TemplateKey): Template {
    Template(Texts(k).0, Texts(k).1, Texts(k).2, Profile(k).0, Profile(k).1, Impacts(k).0, Impacts(k).1,
             DefaultCohorts(k))
  }

  /** The complexities a template may declare. */
  predicate ValidComplexity(c: string) {
    c == "low" || c == "medium" || c == "high"
  }

  /**
   * Every template declares a complexity of low, medium or high and a
   * positive CX impact, and only the dasher-assignment template promises a
   * positive efficiency impact.
   */
  lemma TemplateFacts()
    ensures forall k :: ValidComplexity(TemplateFor(k).complexity)
    ensures forall k :: TemplateFor(k).baseCxImpact > 0.0
    ensures forall k :: TemplateFor(k).baseEfficiencyImpact > 0.0 <==> k == DasherAssignment
  {
  }

  /** The mapping of `_map_hypothesis_to_action`, as its dictionary's items. */
  const NameToTemplate: seq<(string, TemplateKey)> := [
    ("Batching Threshold Increase", BatchingThreshold),
    ("Merchant Prep-Time Drift", EtaBuffer),
    ("Inventory Availability Degradation", SkuSuppression),
    ("ETA Model Bias", PrepTimeModel),
    ("Low Dasher Availability", DasherAssignment)]

  /** `dict.get` on a dictionary's items: the value of the first entry with key `name`. */
  function Find(table: seq<(string, TemplateKey)>, name: string): (r: Option<TemplateKey>)
    ensures r.Some? ==> (name, r.value) in table
    ensures r.None? ==> forall j :: 0 <= j < |table| ==> table[j].0 != name
  {
    if |table| == 0 then None
    else if table[0].0 == name then Some(table[0].1)
    else Find(table[1..], name)
  }

  /** `_map_hypothesis_to_action`: the template for one of the five known hypothesis names. */
  function MapHypothesisToAction(hypothesisName: string): Option<TemplateKey> {
    Find(NameToTemplate, hypothesisName)
  }

  /** A lookup of an entry's key finds that entry when no earlier entry has the same key. */
  lemma {:induction false} FindAt(table: seq<(string, TemplateKey)>, j: nat)
    requires j < |table|
    requires forall i :: 0 <= i < j ==> table[i].0 != table[j].0
    ensures Find(table, table[j].0) == Some(table[j].1)
  {
    if j > 0 {
      FindAt(table[1..], j - 1);
    }
  }

  /**
   * The mapping's names begin with different letters, and it maps them to
   * different templates.
   */
  lemma MappingDistinct()
    ensures forall i, j :: 0 <= i < j < |NameToTemplate| ==>
              NameToTemplate[i].0 != NameToTemplate[j].0 && NameToTemplate[i].1 != NameToTemplate[j].1
  {
    forall i, j | 0 <= i < j < |NameToTemplate|
      ensures NameToTemplate[i].0 != NameToTemplate[j].0
    {
      assert NameToTemplate[i].0[0] != NameToTemplate[j].0[0];
    }
  }

  /** Different hypothesis names never share a template. */
  lemma MappingInjective(a: string, b: string)
    requires MapHypothesisToAction(a).Some? && MapHypothesisToAction(a) == MapHypothesisToAction(b)
    ensures a == b
  {
    MappingDistinct();
    var v := MapHypothesisToAction(a).value;
    var i :| 0 <= i < |NameToTemplate| && NameToTemplate[i] == (a, v);
    var j :| 0 <= j < |NameToTemplate| && NameToTemplate[j] == (b, v);
  }

  /** The hypothesis of catalog entry `k` has the name of mapping entry `m`. */
  predicate CatalogMaps(k: nat, m: nat) {
    k < |Hypotheses.Catalog| && m < |NameToTemplate| && Hypotheses.Catalog[k].1.name == NameToTemplate[m].0
  }

  /** The template of each catalog entry, in catalog order. */
  const CatalogTemplates: seq<TemplateKey> := [DasherAssignment, EtaBuffer, BatchingThreshold, SkuSuppression, PrepTimeModel]

  /** The template each catalog hypothesis maps to, entry by entry. */
  lemma CatalogMapping()
    ensures |Hypotheses.Catalog| == |CatalogTemplates|
    ensures forall k :: 0 <= k < |Hypotheses.Catalog| ==>
              MapHypothesisToAction(Hypotheses.Catalog[k].1.name) == Some(CatalogTemplates[k])
  {
    MappingDistinct();
    assert |Hypotheses.Catalog| == 5;
    forall k | 0 <= k < 5 ensures MapHypothesisToAction(Hypotheses.Catalog[k].1.name) == Some(CatalogTemplates[k]) {
      var m := [4, 1, 0, 2, 3][k];
      assert CatalogMaps(k, m);
      FindAt(NameToTemplate, m);
    }
  }

  /** Each hypothesis of the catalog has a template. */
  lemma CatalogHasTemplates()
    ensures forall h :: h in Hypotheses.AllHypotheses() ==> MapHypothesisToAction(h.name).Some?
  {
    var hs := Hypotheses.AllHypotheses();
    CatalogMapping();
    forall h | h in hs ensures MapHypothesisToAction(h.name).Some? {
      var k :| 0 <= k < |hs| && hs[k] == h;
      assert h == Hypotheses.Catalog[k].1;
    }
  }

  /** Some hypothesis of the catalog maps to template `t`. */
  ghost predicate ServesCatalog(t: TemplateKey) {
    exists h :: h in Hypotheses.AllHypotheses() && MapHypothesisToAction(h.name) == Some(t)
  }

  /**
   * Every template serves a hypothesis of the catalog, so together with
   * `MappingInjective` the mapping pairs the five hypotheses with the five
   * templates.
   */
  lemma TemplatesServeCatalog()
    ensures forall t :: ServesCatalog(t)
  {
    var hs := Hypotheses.AllHypotheses();
    CatalogMapping();
    forall t ensures ServesCatalog(t) {
      var k := match t
        case DasherAssignment => 0
        case EtaBuffer => 1
        case BatchingThreshold => 2
        case SkuSuppression => 3
        case PrepTimeModel => 4;
      assert CatalogTemplates[k] == t && hs[k] == Hypotheses.Catalog[k].1;
      assert hs[k] in hs && MapHypothesisToAction(hs[k].name) == Some(t);
    }
  }

  /** A root cause as the ranking hands it over: a hypothesis name when present, and a confidence when present. */
  datatype RootCause = RootCause(hypothesisName: Option<string>, confidence: Option<real>)

  /** Confidence assumed for a cause that carries none. */
  const DefaultConfidence: real := 0.5

  /** Root causes considered. */
  const TopCauses: nat := 3

  /**
   * A recommended action. Its name, description, implementation note,
   * complexity and rollout time are those of its template, which it keeps
   * by key; `C` is the cohort description, passed through untouched.
   */
  datatype Action<C> = Action(
    actionId: string,
    template: TemplateKey,
    targetCause: string,
    expectedCxImpact: real,
    expectedEfficiencyImpact: real,
    confidence: real,
    affectedCohorts: seq<C>)
  {
    function Name(): string { Texts(template).0 }
    function Description(): string { Texts(template).1 }
    function Implementation(): string { Texts(template).2 }
    function Complexity(): string { Profile(template).0 }
    function RolloutTime(): string { Profile(template).1 }
  }

  /** The id of the action for the cause at 0-based position `i`. */
  function ActionId(i: nat): string {
    "action_" + PadNum(i + 1, 3)
  }

  /** Different cause positions give different action ids. */
  lemma ActionIdInjective(i: nat, j: nat)
    requires ActionId(i) == ActionId(j)
    ensures i == j
  {
    assert PadNum(i + 1, 3) == ActionId(i)[7..];
    assert PadNum(j + 1, 3) == ActionId(j)[7..];
    PadNumInjective(i + 1, j + 1, 3);
  }

  /** The expected CX impact of a template applied with a given confidence. */
  function ScaledImpact(k: TemplateKey, confidence: real): real {
    Impacts(k).0 * confidence
  }

  /** The template of a cause: the mapping's entry for its hypothesis name, if it has one. */
  function TemplateOf(cause: RootCause): Option<TemplateKey> {
    if cause.hypothesisName.None? then None else MapHypothesisToAction(cause.hypothesisName.value)
  }

  /** The templates of the causes, position by position. */
  function Templates(causes: seq<RootCause>): (r: seq<Option<TemplateKey>>)
    ensures |r| == |causes|
    ensures forall i :: 0 <= i < |causes| ==> r[i] == TemplateOf(causes[i])
  {
    seq(|causes|, i requires 0 <= i < |causes| => TemplateOf(causes[i]))
  }

  /** The action for the cause at position `i` when its hypothesis has template `key`. */
  function ActionFor<C>(i: nat, cause: RootCause, key: Option<TemplateKey>, cohorts: Option<seq<C>>): Option<Action<C>> {
    if cause.hypothesisName.None? || key.None? then None
    else
      var k := key.value;
      var conf := cause.confidence.GetOr(DefaultConfidence);
      Some(Action(ActionId(i), k, cause.hypothesisName.value, ScaledImpact(k, conf), Impacts(k).1, conf,
                  if cohorts.Some? then cohorts.value else []))
  }

  /** The action for the cause at position `i`, if its hypothesis has a template. */
  function ActionAt<C>(i: nat, cause: RootCause, cohorts: Option<seq<C>>): Option<Action<C>> {
    ActionFor(i, cause, TemplateOf(cause), cohorts)
  }

  /**
   * A cause yields an action exactly when it names a hypothesis that has a
   * template; the action targets that hypothesis, uses that template and
   * its efficiency impact, carries the id of the cause's position, and
   * scales the template's CX impact by the cause's confidence (0.5 when it
   * has none); the cohorts default to none.
   */
  lemma ActionAtFacts<C>(i: nat, cause: RootCause, cohorts: Option<seq<C>>)
    ensures ActionAt(i, cause, cohorts).Some?
            <==> cause.hypothesisName.Some? && MapHypothesisToAction(cause.hypothesisName.value).Some?
    ensures ActionAt(i, cause, cohorts).Some? ==>
              MadeFrom(ActionAt(i, cause, cohorts).value, i, cause.hypothesisName.value,
                       MapHypothesisToAction(cause.hypothesisName.value).value,
                       cause.confidence.GetOr(DefaultConfidence),
                       if cohorts.Some? then cohorts.value else [])
  {
  }

  /** The action for position `i` made from hypothesis `name` with template `k` and confidence `conf`. */
  ghost predicate MadeFrom<C>(a: Action<C>, i: nat, name: string, k: TemplateKey, conf: real, cohorts: seq<C>) {
    a.actionId == ActionId(i) && a.targetCause == name && a.template == k
    && a.confidence == conf && a.expectedCxImpact == Impacts(k).0 * conf
    && a.expectedEfficiencyImpact == Impacts(k).1 && a.affectedCohorts == cohorts
  }

  /**
   * The actions of the first `n` causes, in cause order, where `keys[k]` is
   * the template of cause `k` (see `Templates`).
   */
  function Candidates<C>(causes: seq<RootCause>, keys: seq<Option<TemplateKey>>, n: nat, cohorts: Option<seq<C>>)
    : (r: seq<Action<C>>)
    requires n <= |causes| == |keys|
    ensures |r| <= n
  {
    if n == 0 then []
    else
      var prior := Candidates(causes, keys, n - 1, cohorts);
      match ActionFor(n - 1, causes[n - 1], keys[n - 1], cohorts)
      case None => prior
      case Some(a) => prior + [a]
  }

  /** One more cause appends its action, when it has one. */
  lemma CandidatesSnoc<C>(causes: seq<RootCause>, keys: seq<Option<TemplateKey>>, n: nat, cohorts: Option<seq<C>>)
    requires 0 < n <= |causes| == |keys|
    ensures var last := ActionFor(n - 1, causes[n - 1], keys[n - 1], cohorts);
            Candidates(causes, keys, n, cohorts)
            == Candidates(causes, keys, n - 1, cohorts) + (if last.Some? then [last.value] else [])
  {
  }

  /** An action is the one made from the cause at position `k`. */
  ghost predicate FromCause<C>(causes: seq<RootCause>, cohorts: Option<seq<C>>, k: int, a: Action<C>) {
    0 <= k < |causes| && ActionAt(k, causes[k], cohorts) == Some(a)
  }

  /** Every one of the first `n` causes that yields an action has it in `r`. */
  ghost predicate CoversCauses<C>(causes: seq<RootCause>, cohorts: Option<seq<C>>, n: nat, r: seq<Action<C>>) {
    forall k: nat :: k < n && k < |causes| && ActionAt(k, causes[k], cohorts).Some? ==>
      ActionAt(k, causes[k], cohorts).value in r
  }

  /** An action is the one made from the cause at position `k` with template `keys[k]`. */
  ghost predicate MadeAt<C>(causes: seq<RootCause>, keys: seq<Option<TemplateKey>>, cohorts: Option<seq<C>>, k: int,
                            a: Action<C>) {
    0 <= k < |causes| && k < |keys| && ActionFor(k, causes[k], keys[k], cohorts) == Some(a)
  }

  /** An action is made from one of the first `n` causes. */
  ghost predicate FromFirst<C>(causes: seq<RootCause>, keys: seq<Option<TemplateKey>>, cohorts: Option<seq<C>>, n: nat,
                               a: Action<C>) {
    exists k :: 0 <= k < n && MadeAt(causes, keys, cohorts, k, a)
  }

  /** Every action of `r` is made from one of the first `n` causes. */
  ghost predicate AllFromFirst<C>(causes: seq<RootCause>, keys: seq<Option<TemplateKey>>, cohorts: Option<seq<C>>,
                                  n: nat, r: seq<Action<C>>) {
    forall j :: 0 <= j < |r| ==> FromFirst(causes, keys, cohorts, n, r[j])
  }

  /** Every one of the first `n` causes that yields an action with its template in `keys` has it in `r`. */
  ghost predicate CoversFirst<C>(causes: seq<RootCause>, keys: seq<Option<TemplateKey>>, cohorts: Option<seq<C>>,
                                 n: nat, r: seq<Action<C>>) {
    forall k: nat :: k < n && k < |causes| && k < |keys| && ActionFor(k, causes[k], keys[k], cohorts).Some? ==>
      ActionFor(k, causes[k], keys[k], cohorts).value in r
  }

  /** No two actions share an id. */
  ghost predicate DistinctIds<C>(r: seq<Action<C>>) {
    forall i, j :: 0 <= i < j < |r| ==> r[i].actionId != r[j].actionId
  }

  /** An action has the id of a position below `n`. */
  ghost predicate IdBelow<C>(a: Action<C>, n: nat) {
    exists k :: 0 <= k < n && a.actionId == ActionId(k)
  }

  /** Every action has the id of a position below `n`. */
  ghost predicate IdsBelow<C>(r: seq<Action<C>>, n: nat) {
    forall j :: 0 <= j < |r| ==> IdBelow(r[j], n)
  }

  /** Appending the action (if any) of cause `n` keeps every action made from the first causes. */
  lemma FromSnoc<C>(causes: seq<RootCause>, keys: seq<Option<TemplateKey>>, cohorts: Option<seq<C>>, n: nat, m: nat,
                    prior: seq<Action<C>>, last: Option<Action<C>>, r: seq<Action<C>>)
    requires m == n + 1
    requires n < |causes| == |keys| && last == ActionFor(n, causes[n], keys[n], cohorts)
    requires r == prior + (if last.Some? then [last.value] else [])
    ensures AllFromFirst(causes, keys, cohorts, n, prior) ==> AllFromFirst(causes, keys, cohorts, m, r)
  {
    if AllFromFirst(causes, keys, cohorts, n, prior) {
      forall j | 0 <= j < |r| ensures FromFirst(causes, keys, cohorts, m, r[j]) {
        if j < |prior| {
          assert FromFirst(causes, keys, cohorts, n, prior[j]);
          var k :| 0 <= k < n && MadeAt(causes, keys, cohorts, k, prior[j]);
          assert MadeAt(causes, keys, cohorts, k, r[j]);
        } else {
          assert MadeAt(causes, keys, cohorts, n, r[j]);
        }
      }
    }
  }

  /** Appending the action (if any) of cause `n` covers the first `n + 1` causes. */
  lemma CoversSnoc<C>(causes: seq<RootCause>, keys: seq<Option<TemplateKey>>, cohorts: Option<seq<C>>, n: nat,
                      prior: seq<Action<C>>, last: Option<Action<C>>, r: seq<Action<C>>)
    requires n < |causes| == |keys| && last == ActionFor(n, causes[n], keys[n], cohorts)
    requires r == prior + (if last.Some? then [last.value] else [])
    ensures CoversFirst(causes, keys, cohorts, n, prior) ==> CoversFirst(causes, keys, cohorts, n + 1, r)
  {
    if CoversFirst(causes, keys, cohorts, n, prior) {
      forall k: nat | k < n + 1 && k < |causes| && k < |keys| && ActionFor(k, causes[k], keys[k], cohorts).Some?
        ensures ActionFor(k, causes[k], keys[k], cohorts).value in r
      {
        var a := ActionFor(k, causes[k], keys[k], cohorts).value;
        if k < n {
          assert a in prior;
          assert r[..|prior|] == prior;
        } else {
          assert r[|prior|] == a;
        }
      }
    }
  }

  /**
   * The candidates of the first `n` causes are exactly the actions made
   * from those causes.
   */
  lemma {:induction false} CandidatesFrom<C>(causes: seq<RootCause>, keys: seq<Option<TemplateKey>>, n: nat,
                                             cohorts: Option<seq<C>>)
    requires n <= |causes| == |keys|
    ensures AllFromFirst(causes, keys, cohorts, n, Candidates(causes, keys, n, cohorts))
    ensures CoversFirst(causes, keys, cohorts, n, Candidates(causes, keys, n, cohorts))
  {
    if n > 0 {
      CandidatesFrom(causes, keys, n - 1, cohorts);
      var prior := Candidates(causes, keys, n - 1, cohorts);
      var r := Candidates(causes, keys, n, cohorts);
      var last := ActionFor(n - 1, causes[n - 1], keys[n - 1], cohorts);
      CandidatesSnoc(causes, keys, n, cohorts);
      FromSnoc(causes, keys, cohorts, n - 1, n, prior, last, r);
      CoversSnoc(causes, keys, cohorts, n - 1, prior, last, r);
    }
  }

  /** Appending an action with the id of position `n` keeps the ids below `m == n + 1` and distinct. */
  lemma IdsSnoc<C>(prior: seq<Action<C>>, a: Action<C>, n: nat, m: nat)
    requires m == n + 1 && a.actionId == ActionId(n)
    ensures IdsBelow(prior, n) && DistinctIds(prior) ==> IdsBelow(prior + [a], m) && DistinctIds(prior + [a])
  {
    if !(IdsBelow(prior, n) && DistinctIds(prior)) { return; }
    var r := prior + [a];
    forall j | 0 <= j < |r| ensures IdBelow(r[j], m) {
      if j < |prior| {
        assert IdBelow(prior[j], n);
        var k :| 0 <= k < n && prior[j].actionId == ActionId(k);
        assert r[j].actionId == ActionId(k);
      } else {
        assert r[j].actionId == ActionId(n);
      }
    }
    forall j | 0 <= j < |prior| ensures prior[j].actionId != a.actionId {
      assert IdBelow(prior[j], n);
      var k :| 0 <= k < n && prior[j].actionId == ActionId(k);
      if prior[j].actionId == a.actionId {
        ActionIdInjective(k, n);
      }
    }
  }

  /** Ids below `n` are ids below any `m >= n`. */
  lemma IdsWiden<C>(prior: seq<Action<C>>, n: nat, m: nat)
    requires n <= m
    ensures IdsBelow(prior, n) ==> IdsBelow(prior, m)
  {
    if !IdsBelow(prior, n) { return; }
    forall j | 0 <= j < |prior| ensures IdBelow(prior[j], m) {
      assert IdBelow(prior[j], n);
    }
  }

  /** The candidates carry ids of positions below `n`, no two alike. */
  lemma {:induction false} CandidatesIds<C>(causes: seq<RootCause>, keys: seq<Option<TemplateKey>>, n: nat,
                                            cohorts: Option<seq<C>>)
    requires n <= |causes| == |keys|
    ensures IdsBelow(Candidates(causes, keys, n, cohorts), n)
    ensures DistinctIds(Candidates(causes, keys, n, cohorts))
  {
    if n > 0 {
      CandidatesIds(causes, keys, n - 1, cohorts);
      CandidatesIdsStep(causes, keys, n, cohorts);
    }
  }

  /** One step of `CandidatesIds`: the action of cause `n - 1`, if any, has a fresh id. */
  lemma CandidatesIdsStep<C>(causes: seq<RootCause>, keys: seq<Option<TemplateKey>>, n: nat, cohorts: Option<seq<C>>)
    requires 0 < n <= |causes| == |keys|
    ensures var prior := Candidates(causes, keys, n - 1, cohorts);
            IdsBelow(prior, n - 1) && DistinctIds(prior) ==>
              IdsBelow(Candidates(causes, keys, n, cohorts), n) && DistinctIds(Candidates(causes, keys, n, cohorts))
  {
    var prior := Candidates(causes, keys, n - 1, cohorts);
    var last := ActionFor(n - 1, causes[n - 1], keys[n - 1], cohorts);
    CandidatesSnoc(causes, keys, n, cohorts);
    if last.Some? {
      IdsSnoc(prior, last.value, n - 1, n);
    } else {
      IdsWiden(prior, n - 1, n);
    }
  }

  /** The action of a cause, looked up through the templates of all causes. */
  lemma ActionAtTemplates<C>(causes: seq<RootCause>, k: nat, cohorts: Option<seq<C>>)
    requires k < |causes|
    ensures ActionAt(k, causes[k], cohorts) == ActionFor(k, causes[k], Templates(causes)[k], cohorts)
  {
  }

  /** Sort key of the action ranking. */
  function CxKey<C>(a: Action<C>): seq<real> { [a.expectedCxImpact] }

  /** The candidates of the first three causes, from which `Actions` sorts. */
  function TopCandidates<C>(causes: seq<RootCause>, cohorts: Option<seq<C>>): seq<Action<C>> {
    Candidates(causes, Templates(causes), if |causes| < TopCauses then |causes| else TopCauses, cohorts)
  }

  /** `generate_actions`: the actions of the first three causes, stably sorted by descending CX impact. */
  function Actions<C>(causes: seq<RootCause>, cohorts: Option<seq<C>>): seq<Action<C>> {
    SortDesc(TopCandidates(causes, cohorts), CxKey)
  }

  /** Actions in order of non-increasing expected CX impact. */
  ghost predicate ByCxImpact<C>(r: seq<Action<C>>) {
    forall i, j :: 0 <= i < j < |r| ==> r[i].expectedCxImpact >= r[j].expectedCxImpact
  }

  /**
   * The actions are the candidates reordered by non-increasing CX impact,
   * with equal impacts kept in cause order; there are at most three.
   */
  lemma ActionsSorted<C>(causes: seq<RootCause>, cohorts: Option<seq<C>>)
    ensures |Actions(causes, cohorts)| <= TopCauses
    ensures multiset(Actions(causes, cohorts)) == multiset(TopCandidates(causes, cohorts))
    ensures ByCxImpact(Actions(causes, cohorts))
    ensures forall x: real :: KeyClass(Actions(causes, cohorts), CxKey, [x]) == KeyClass(TopCandidates(causes, cohorts), CxKey, [x])
  {
    var r := Actions(causes, cohorts);
    SortDescSorted(TopCandidates(causes, cohorts), CxKey);
    forall i, j | 0 <= i < j < |r| ensures r[i].expectedCxImpact >= r[j].expectedCxImpact {
      assert !LexGt(CxKey(r[j]), CxKey(r[i]));
    }
    forall x: real ensures KeyClass(r, CxKey, [x]) == KeyClass(TopCandidates(causes, cohorts), CxKey, [x]) {
      SortDescStable(TopCandidates(causes, cohorts), CxKey, [x]);
    }
  }

  /**
   * Every action is made from one of the first three causes, and every one
   * of those causes whose hypothesis has a template contributes its action;
   * so a cause with no hypothesis, or one outside the mapping, yields none.
   */
  lemma ActionsFromCauses<C>(causes: seq<RootCause>, cohorts: Option<seq<C>>)
    ensures forall a :: a in Actions(causes, cohorts) ==> exists k :: 0 <= k < TopCauses && FromCause(causes, cohorts, k, a)
    ensures CoversCauses(causes, cohorts, TopCauses, Actions(causes, cohorts))
  {
    var n := if |causes| < TopCauses then |causes| else TopCauses;
    ActionsSorted(causes, cohorts);
    CandidatesFrom(causes, Templates(causes), n, cohorts);
    forall a | a in Actions(causes, cohorts) ensures exists k :: 0 <= k < TopCauses && FromCause(causes, cohorts, k, a) {
      ActionFromCause(causes, cohorts, a);
    }
    forall k: nat | k < TopCauses && k < |causes| && ActionAt(k, causes[k], cohorts).Some?
      ensures ActionAt(k, causes[k], cohorts).value in Actions(causes, cohorts)
    {
      CauseHasAction(causes, cohorts, k);
    }
  }

  /** One action of `ActionsFromCauses`: it is made from one of the first three causes. */
  lemma ActionFromCause<C>(causes: seq<RootCause>, cohorts: Option<seq<C>>, a: Action<C>)
    requires multiset(Actions(causes, cohorts)) == multiset(TopCandidates(causes, cohorts))
    requires var n := if |causes| < TopCauses then |causes| else TopCauses;
             AllFromFirst(causes, Templates(causes), cohorts, n, TopCandidates(causes, cohorts))
    requires a in Actions(causes, cohorts)
    ensures exists k :: 0 <= k < TopCauses && FromCause(causes, cohorts, k, a)
  {
    var n := if |causes| < TopCauses then |causes| else TopCauses;
    var keys := Templates(causes);
    var cands := TopCandidates(causes, cohorts);
    assert a in multiset(cands);
    var j :| 0 <= j < |cands| && cands[j] == a;
    assert FromFirst(causes, keys, cohorts, n, cands[j]);
    var k :| 0 <= k < n && MadeAt(causes, keys, cohorts, k, cands[j]);
    ActionAtTemplates(causes, k, cohorts);
    assert FromCause(causes, cohorts, k, a);
  }

  /** One cause of `ActionsFromCauses`: among the first three, its action is among the actions. */
  lemma CauseHasAction<C>(causes: seq<RootCause>, cohorts: Option<seq<C>>, k: nat)
    requires multiset(Actions(causes, cohorts)) == multiset(TopCandidates(causes, cohorts))
    requires var n := if |causes| < TopCauses then |causes| else TopCauses;
             CoversFirst(causes, Templates(causes), cohorts, n, TopCandidates(causes, cohorts))
    requires k < TopCauses && k < |causes| && ActionAt(k, causes[k], cohorts).Some?
    ensures ActionAt(k, causes[k], cohorts).value in Actions(causes, cohorts)
  {
    ActionAtTemplates(causes, k, cohorts);
    assert ActionAt(k, causes[k], cohorts).value in TopCandidates(causes, cohorts);
    assert ActionAt(k, causes[k], cohorts).value in multiset(Actions(causes, cohorts));
  }

  /** The actions carry distinct ids. */
  lemma ActionsDistinctIds<C>(causes: seq<RootCause>, cohorts: Option<seq<C>>)
    ensures DistinctIds(Actions(causes, cohorts))
  {
    var n := if |causes| < TopCauses then |causes| else TopCauses;
    var r := Actions(causes, cohorts);
    ActionsSorted(causes, cohorts);
    CandidatesIds(causes, Templates(causes), n, cohorts);
    forall i, j | 0 <= i < j < |r| ensures r[i].actionId != r[j].actionId {
      DistinctIdsAfterSort(TopCandidates(causes, cohorts), r, i, j);
    }
  }

  /** Two positions of a permutation of actions with distinct ids hold distinct ids. */
  lemma DistinctIdsAfterSort<C>(s: seq<Action<C>>, r: seq<Action<C>>, i: nat, j: nat)
    requires multiset(r) == multiset(s)
    requires DistinctIds(s)
    requires i < j < |r|
    ensures r[i].actionId != r[j].actionId
  {
    assert r[i] in multiset(s) && r[j] in multiset(s);
    var p :| 0 <= p < |s| && s[p] == r[i];
    var q :| 0 <= q < |s| && s[q] == r[j];
    if p == q {
      // r[i] == r[j] would occur twice in r but once in s
      assert multiset(r)[r[i]] >= 2 by {
        assert r[i] == r[j];
        var m := multiset(r[..j]);
        assert r[i] in m by { assert r[..j][i] == r[i]; }
        assert r == r[..j] + [r[j]] + r[j + 1..];
      }
      MultiplicityOne(s, p);
    }
  }

  /** An action whose id no other position shares occurs once. */
  lemma {:induction false} MultiplicityOne<C>(s: seq<Action<C>>, p: nat)
    requires p < |s|
    requires DistinctIds(s)
    ensures multiset(s)[s[p]] == 1
  {
    var x := s[p];
    var init := s[..|s| - 1];
    assert s == init + [s[|s| - 1]];
    if p == |s| - 1 {
      forall a | 0 <= a < |init| ensures init[a] != x {
        assert s[a].actionId != s[p].actionId;
      }
    } else {
      MultiplicityOne(init, p);
      assert s[|s| - 1] != x by { assert s[|s| - 1].actionId != s[p].actionId; }
    }
  }

  /** `generate_actions` as the source writes it: append in a loop, then sort. */
  method GenerateActions<C>(causes: seq<RootCause>, cohorts: Option<seq<C>>) returns (actions: seq<Action<C>>)
    ensures actions == Actions(causes, cohorts)
  {
    var n := if |causes| < TopCauses then |causes| else TopCauses;
    actions := CollectActions(causes, n, cohorts);
    actions := SortDesc(actions, CxKey);
  }

  /** The loop of `generate_actions`: the action of each of the first `n` causes that has one, in order. */
  method CollectActions<C>(causes: seq<RootCause>, n: nat, cohorts: Option<seq<C>>) returns (actions: seq<Action<C>>)
    requires n <= |causes|
    ensures actions == Candidates(causes, Templates(causes), n, cohorts)
  {
    actions := [];
    for i := 0 to n
      invariant actions == Candidates(causes, Templates(causes), i, cohorts)
    {
      var cause := causes[i];
      if cause.hypothesisName.Some? {
        var key := MapHypothesisToAction(cause.hypothesisName.value);
        assert key == Templates(causes)[i];
        if key.Some? {
          actions := actions + [ActionFor(i, cause, key, cohorts).value];
        }
      }
    }
  }
}
