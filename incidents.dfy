/**
 * The incident store: incidents created from metric regressions, held in a
 * list that is appended to, reordered by queries and updated in place.
 * Incident ids (a random UUID in the system) and detection times are
 * parameters.
 */
module Incidents {
  import opened Wrappers
  import opened Stats
  import opened Lists
  import opened Schema
  import opened Slicing

  datatype Incident = Incident(
    incidentId: string,
    detectedAt: int,
    metricName: string,
    metricValue: real,
    baselineValue: Option<real>,
    delta: real,
    deltaPercent: real,
    severity: Severity,
    status: string,
    affectedCohorts: seq<seq<(string, Cell)>>,
    topRegressingSlices: seq<Slice>,
    description: Option<string>)

  /**
   * The change from the baseline, `(delta, delta_percent)`: both 0 without a
   * baseline, the percentage 0 for a zero baseline.
   */
  function Change(value: real, baseline: Option<real>): (c: (real, real))
    ensures baseline.None? ==> c == (0.0, 0.0)
    ensures baseline.Some? ==> baseline.value + c.0 == value
    ensures baseline.Some? && baseline.value == 0.0 ==> c.1 == 0.0
    ensures baseline.Some? && baseline.value != 0.0 ==> c.1 * baseline.value == c.0 * 100.0
  {
    match baseline
    case None => (0.0, 0.0)
    case Some(b) =>
      var delta := value - b;
      if b != 0.0 then
        var q := delta / b;
        assert q * b == delta;
        assert q * 100.0 * b == q * b * 100.0;
        (delta, q * 100.0)
      else (delta, 0.0)
  }

  /** HIGH from `high`, MEDIUM from `medium`, else LOW. */
  function Ladder(magnitude: real, high: real, medium: real): Severity {
    if magnitude >= high then High else if magnitude >= medium then Medium else Low
  }

  /**
   * `cx_score` is graded by the absolute change (15 and 8 points), every
   * other metric by the absolute percentage change (20% and 10%).
   */
  function IncidentSeverity(delta: real, deltaPercent: real, metricName: string): Severity {
    if metricName == "cx_score" then Ladder(Abs(delta), 15.0, 8.0)
    else Ladder(Abs(deltaPercent), 20.0, 10.0)
  }

  /**
   * A larger change is never a milder incident; `cx_score` ignores the
   * percentage and the other metrics ignore the absolute change.
   */
  lemma IncidentSeverityMonotone(d1: real, p1: real, d2: real, p2: real, metricName: string)
    requires Abs(d1) <= Abs(d2) && Abs(p1) <= Abs(p2)
    ensures SeverityRank(IncidentSeverity(d1, p1, metricName)) <= SeverityRank(IncidentSeverity(d2, p2, metricName))
    ensures metricName == "cx_score" ==> IncidentSeverity(d1, p1, metricName) == IncidentSeverity(d1, p2, metricName)
    ensures metricName != "cx_score" ==> IncidentSeverity(d1, p1, metricName) == IncidentSeverity(d2, p1, metricName)
  {
  }

  /** The record `create_incident` builds: status `new`, change and severity from the values. */
  function NewIncident(incidentId: string, metricName: string, metricValue: real, baselineValue: Option<real>,
                       detectedAt: int, affectedCohorts: Option<seq<seq<(string, Cell)>>>,
                       topRegressingSlices: Option<seq<Slice>>, description: Option<string>): (inc: Incident)
    ensures inc.status == "new" && inc.incidentId == incidentId && inc.metricName == metricName
    ensures (inc.delta, inc.deltaPercent) == Change(metricValue, baselineValue)
    ensures inc.severity == IncidentSeverity(inc.delta, inc.deltaPercent, metricName)
  {
    var c := Change(metricValue, baselineValue);
    Incident(incidentId, detectedAt, metricName, metricValue, baselineValue, c.0, c.1,
             IncidentSeverity(c.0, c.1, metricName), "new",
             affectedCohorts.GetOr([]), topRegressingSlices.GetOr([]), description)
  }

  /** A filter argument is applied only when it is a non-empty string. */
  predicate Truthy(s: Option<string>) {
    s.Some? && s.value != ""
  }

  /** Ranking key: severity rank, then detection time. */
  function IncidentKey(i: Incident): seq<real> {
    [SeverityRank(i.severity) as real, i.detectedAt as real]
  }

  function WithStatus(s: seq<Incident>, status: Option<string>): seq<Incident> {
    if Truthy(status) then Filter(s, (i: Incident) => i.status == status.value) else s
  }

  function WithSeverity(s: seq<Incident>, severity: Option<string>): seq<Incident> {
    if Truthy(severity) then Filter(s, (i: Incident) => SeverityName(i.severity) == severity.value) else s
  }

  /** Reference result of `get_incidents`: filter, rank most severe and most recent first, cut to a non-zero limit. */
  function ListIncidents(s: seq<Incident>, status: Option<string>, severity: Option<string>, limit: Option<int>)
    : seq<Incident>
  {
    var sorted := SortDesc(WithSeverity(WithStatus(s, status), severity), IncidentKey);
    if limit.Some? && limit.value != 0 then Take(sorted, limit.value) else sorted
  }

  /**
   * Every listed incident is stored and passes the filters; the list is
   * ranked; a positive limit bounds its length; without a limit nothing
   * that passes the filters is dropped, and without filters it is a
   * reordering of the whole store.
   */
  lemma ListIncidentsFacts(s: seq<Incident>, status: Option<string>, severity: Option<string>, limit: Option<int>)
    ensures forall i :: i in ListIncidents(s, status, severity, limit) ==>
              i in s && (Truthy(status) ==> i.status == status.value)
              && (Truthy(severity) ==> SeverityName(i.severity) == severity.value)
    ensures SortedDesc(ListIncidents(s, status, severity, limit), IncidentKey)
    ensures limit.Some? && limit.value > 0 ==> |ListIncidents(s, status, severity, limit)| <= limit.value
    ensures limit.None? ==>
              forall i :: (i in s && (Truthy(status) ==> i.status == status.value)
                           && (Truthy(severity) ==> SeverityName(i.severity) == severity.value))
                          ==> i in ListIncidents(s, status, severity, limit)
    ensures limit.None? && !Truthy(status) && !Truthy(severity) ==>
              multiset(ListIncidents(s, status, severity, limit)) == multiset(s)
  {
    ListIncidentsSound(s, status, severity, limit);
    if limit.None? {
      ListIncidentsComplete(s, status, severity);
    }
  }

  lemma ListIncidentsSound(s: seq<Incident>, status: Option<string>, severity: Option<string>, limit: Option<int>)
    ensures forall i :: i in ListIncidents(s, status, severity, limit) ==>
              i in s && (Truthy(status) ==> i.status == status.value)
              && (Truthy(severity) ==> SeverityName(i.severity) == severity.value)
    ensures SortedDesc(ListIncidents(s, status, severity, limit), IncidentKey)
    ensures limit.Some? && limit.value > 0 ==> |ListIncidents(s, status, severity, limit)| <= limit.value
  {
    var filtered := WithSeverity(WithStatus(s, status), severity);
    var sorted := SortDesc(filtered, IncidentKey);
    SortDescSorted(filtered, IncidentKey);
    TakeSorted(sorted, if limit.Some? && limit.value != 0 then limit.value else |sorted|, IncidentKey);
    assert Take(sorted, |sorted|) == sorted;
    forall i | i in sorted ensures i in filtered {
      assert i in multiset(sorted);
    }
  }

  lemma ListIncidentsComplete(s: seq<Incident>, status: Option<string>, severity: Option<string>)
    ensures forall i :: (i in s && (Truthy(status) ==> i.status == status.value)
                         && (Truthy(severity) ==> SeverityName(i.severity) == severity.value))
                        ==> i in ListIncidents(s, status, severity, None)
    ensures !Truthy(status) && !Truthy(severity) ==> multiset(ListIncidents(s, status, severity, None)) == multiset(s)
  {
    var filtered := WithSeverity(WithStatus(s, status), severity);
    SortDescSorted(filtered, IncidentKey);
    forall i | i in filtered ensures i in SortDesc(filtered, IncidentKey) {
      assert i in multiset(filtered);
    }
  }

  /** Position of the first incident with the id, or None. */
  function FirstWithId(s: seq<Incident>, id: string): (k: Option<nat>)
    ensures k.None? <==> forall j :: 0 <= j < |s| ==> s[j].incidentId != id
    ensures k.Some? ==> k.value < |s| && s[k.value].incidentId == id
                        && forall j :: 0 <= j < k.value ==> s[j].incidentId != id
  {
    if |s| == 0 then None
    else if s[0].incidentId == id then Some(0)
    else
      var k := FirstWithId(s[1..], id);
      assert forall j :: 0 < j < |s| ==> s[j] == s[1..][j - 1];
      if k.Some? then Some(k.value + 1) else None
  }

  /** The store after setting the status of the first incident with the id; unchanged for an unknown id. */
  function SetStatus(s: seq<Incident>, id: string, status: string): seq<Incident> {
    match FirstWithId(s, id)
    case None => s
    case Some(k) => s[k := s[k].(status := status)]
  }

  /**
   * Only the status of the first incident with the id changes, to any
   * value; every other incident and field stays as it was.
   */
  lemma SetStatusFacts(s: seq<Incident>, id: string, status: string)
    ensures |SetStatus(s, id, status)| == |s|
    ensures forall j :: 0 <= j < |s| && s[j].incidentId != id ==> SetStatus(s, id, status)[j] == s[j]
    ensures (forall j :: 0 <= j < |s| ==> s[j].incidentId != id) ==> SetStatus(s, id, status) == s
    ensures forall j :: 0 <= j < |s| && s[j].incidentId == id ==>
              SetStatus(s, id, status)[j] == s[j] || SetStatus(s, id, status)[j] == s[j].(status := status)
    ensures (exists j :: 0 <= j < |s| && s[j].incidentId == id) ==>
              exists j :: 0 <= j < |s| && SetStatus(s, id, status)[j] == s[j].(status := status)
                          && s[j].incidentId == id
    ensures FirstWithId(s, id).Some? ==>
              SetStatus(s, id, status)[FirstWithId(s, id).value] == s[FirstWithId(s, id).value].(status := status)
    ensures forall k :: 0 <= k < |s| && s[k].incidentId == id && (forall j :: 0 <= j < k ==> s[j].incidentId != id) ==>
              SetStatus(s, id, status)[k] == s[k].(status := status)
    ensures forall j, k :: 0 <= j < k < |s| && s[j].incidentId == id ==> SetStatus(s, id, status)[k] == s[k]
  {
  }

  /** The statuses, in store order. */
  function Statuses(s: seq<Incident>): (r: seq<string>)
    ensures |r| == |s| && forall k :: 0 <= k < |s| ==> r[k] == s[k].status
  {
    seq(|s|, k requires 0 <= k < |s| => s[k].status)
  }

  /** The severity labels, in store order. */
  function SeverityNames(s: seq<Incident>): (r: seq<string>)
    ensures |r| == |s| && forall k :: 0 <= k < |s| ==> r[k] == SeverityName(s[k].severity)
  {
    seq(|s|, k requires 0 <= k < |s| => SeverityName(s[k].severity))
  }

  /** Whether each incident is active, i.e. not `resolved`. */
  function ActiveFlags(s: seq<Incident>): (r: seq<bool>)
    ensures |r| == |s| && forall k :: 0 <= k < |s| ==> r[k] == (s[k].status != "resolved")
  {
    seq(|s|, k requires 0 <= k < |s| => s[k].status != "resolved")
  }

  /** Active incidents and resolved incidents together make up the store. */
  lemma {:induction false} ActiveComplement(s: seq<Incident>)
    ensures Count(ActiveFlags(s)) + multiset(Statuses(s))["resolved"] == |s|
  {
    if |s| > 0 {
      var init := s[..|s| - 1];
      ActiveComplement(init);
      assert ActiveFlags(s)[..|s| - 1] == ActiveFlags(init);
      assert Statuses(s) == Statuses(init) + [s[|s| - 1].status];
    }
  }

  /** `get_incidents_summary`: dictionaries kept as their items in insertion order. */
  datatype Summary = Summary(total: nat, byStatus: seq<(string, nat)>, bySeverity: seq<(string, nat)>, active: nat)

  /**
   * The counts per status and per severity each add up to the total, one
   * entry per value that occurs, and the active count is the total less
   * the resolved incidents.
   */
  lemma SummaryFacts(s: seq<Incident>)
    ensures SumCounts(Tally(Statuses(s))) == |s| && SumCounts(Tally(SeverityNames(s))) == |s|
    ensures forall st :: Lookup(Tally(Statuses(s)), st) == multiset(Statuses(s))[st]
    ensures forall sv :: Lookup(Tally(SeverityNames(s)), sv) == multiset(SeverityNames(s))[sv]
    ensures Count(ActiveFlags(s)) + Lookup(Tally(Statuses(s)), "resolved") == |s|
  {
    TallyFacts(Statuses(s));
    TallyFacts(SeverityNames(s));
    ActiveComplement(s);
  }

  class IncidentManager {
    var incidents: seq<Incident>

    constructor()
      ensures incidents == []
    {
      incidents := [];
    }

    /**
     * `create_incident`: the new incident is appended, whatever is already
     * stored (no deduplication).
     */
    method CreateIncident(incidentId: string, metricName: string, metricValue: real, baselineValue: Option<real>,
                          detectedAt: int, affectedCohorts: Option<seq<seq<(string, Cell)>>>,
                          topRegressingSlices: Option<seq<Slice>>, description: Option<string>)
      returns (inc: Incident)
      modifies this
      ensures inc == NewIncident(incidentId, metricName, metricValue, baselineValue, detectedAt,
                                 affectedCohorts, topRegressingSlices, description)
      ensures incidents == old(incidents) + [inc]
    {
      inc := NewIncident(incidentId, metricName, metricValue, baselineValue, detectedAt,
                         affectedCohorts, topRegressingSlices, description);
      incidents := incidents + [inc];
    }

    /**
     * `get_incidents`. Without a filter the stored list itself is the one
     * that gets sorted, so the store is left in ranked order.
     */
    method GetIncidents(status: Option<string>, severity: Option<string>, limit: Option<int>)
      returns (r: seq<Incident>)
      modifies this
      ensures r == ListIncidents(old(incidents), status, severity, limit)
      ensures incidents == if Truthy(status) || Truthy(severity) then old(incidents)
                           else SortDesc(old(incidents), IncidentKey)
    {
      var list := WithSeverity(WithStatus(incidents, status), severity);
      var sorted := SortDesc(list, IncidentKey);
      if !Truthy(status) && !Truthy(severity) {
        incidents := sorted;
      }
      r := if limit.Some? && limit.value != 0 then Take(sorted, limit.value) else sorted;
    }

    /** The loop of `get_incident`: position of the first incident with the id. */
    method Locate(id: string) returns (k: Option<nat>)
      ensures k == FirstWithId(incidents, id)
    {
      var i := 0;
      while i < |incidents|
        invariant 0 <= i <= |incidents|
        invariant forall j :: 0 <= j < i ==> incidents[j].incidentId != id
      {
        if incidents[i].incidentId == id {
          return Some(i);
        }
        i := i + 1;
      }
      return None;
    }

    /** `get_incident`: the first incident with the id, or None. */
    method GetIncident(id: string) returns (r: Option<Incident>)
      ensures r.None? <==> forall j :: 0 <= j < |incidents| ==> incidents[j].incidentId != id
      ensures r.Some? ==> r.value.incidentId == id && r.value in incidents
      ensures r.Some? ==> exists k :: 0 <= k < |incidents| && incidents[k] == r.value
                                      && forall j :: 0 <= j < k ==> incidents[j].incidentId != id
    {
      var k := Locate(id);
      r := if k.Some? then Some(incidents[k.value]) else None;
    }

    /** `update_incident_status`: any new status, no transition check; nothing happens for an unknown id. */
    method UpdateIncidentStatus(id: string, status: string)
      modifies this
      ensures incidents == SetStatus(old(incidents), id, status)
    {
      var k := Locate(id);
      if k.Some? {
        incidents := incidents[k.value := incidents[k.value].(status := status)];
      }
    }

    /** `get_active_incidents`: every incident, resolved ones included, in ranked order. */
    method GetActiveIncidents() returns (r: seq<Incident>)
      modifies this
      ensures r == SortDesc(old(incidents), IncidentKey) && incidents == r
      ensures multiset(r) == multiset(old(incidents))
    {
      r := GetIncidents(None, None, None);
      SortDescSorted(old(incidents), IncidentKey);
    }

    /** `get_incidents_summary`: one pass over the store filling both dictionaries. */
    method GetIncidentsSummary() returns (sum: Summary)
      ensures sum.total == |incidents|
      ensures sum.byStatus == Tally(Statuses(incidents))
      ensures sum.bySeverity == Tally(SeverityNames(incidents))
      ensures sum.active == Count(ActiveFlags(incidents))
    {
      var byStatus: seq<(string, nat)> := [];
      var bySeverity: seq<(string, nat)> := [];
      var i := 0;
      while i < |incidents|
        invariant 0 <= i <= |incidents|
        invariant byStatus == Tally(Statuses(incidents[..i]))
        invariant bySeverity == Tally(SeverityNames(incidents[..i]))
      {
        assert Statuses(incidents[..i + 1]) == Statuses(incidents[..i]) + [incidents[i].status];
        assert SeverityNames(incidents[..i + 1]) == SeverityNames(incidents[..i]) + [SeverityName(incidents[i].severity)];
        byStatus := Bump(byStatus, incidents[i].status);
        bySeverity := Bump(bySeverity, SeverityName(incidents[i].severity));
        i := i + 1;
      }
      assert incidents[..i] == incidents;
      sum := Summary(|incidents|, byStatus, bySeverity, Count(ActiveFlags(incidents)));
    }
  }
}
