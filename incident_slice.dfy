/**
 * The `incidents` slice of the web client's store: the incidents with four
 * denormalised counters (all, high severity, under investigation, resolved)
 * that the reducers keep in step with the list.
 */
module IncidentSlice {
  import Js
  import opened Outcome
  import opened Lists
  import opened ListCache

  predicate HighSeverity(r: Entry) { Js.Get(r.fields, "severity") == Js.Str("High") }
  predicate UnderInvestigation(r: Entry) { Js.Get(r.fields, "status") == Js.Str("Under Investigation") }
  predicate Resolved(r: Entry) { Js.Get(r.fields, "status") == Js.Str("Resolved") }

  /** The incident ids are distinct and each counter is its filter-count of the list. */
  predicate Consistent(incidents: seq<Entry>, totalIncidents: int, highSeverity: int, underInvestigation: int, resolved: int) {
    IdsUnique(incidents) && totalIncidents == |incidents| && highSeverity == Count(incidents, HighSeverity) &&
    underInvestigation == Count(incidents, UnderInvestigation) && resolved == Count(incidents, Resolved)
  }

  datatype IncidentState = IncidentState(
    incidents: seq<Entry>,
    totalIncidents: int,
    highSeverity: int,
    underInvestigation: int,
    resolved: int,
    selectedIncident: Js.Value,
    status: Js.Value,
    error: Js.Value)

  const InitialState := IncidentState([], 0, 0, 0, 0, Js.Null, Js.Str("idle"), Js.Null)

  /** No incident is both under investigation and resolved, so those two counters together stay within the total. */
  lemma StatusCountsWithinTotal(incidents: seq<Entry>, total: int, highSeverity: int, underInvestigation: int, resolved: int)
    requires Consistent(incidents, total, highSeverity, underInvestigation, resolved)
    ensures 0 <= underInvestigation + resolved <= total
    ensures 0 <= highSeverity <= total
  {
    DisjointCountsBounded(incidents, UnderInvestigation, Resolved);
  }

  /** Appending an incident with a new id raises the counters it falls under by one. */
  lemma AddKeepsConsistent(incidents: seq<Entry>, incident: Entry,
                           total: int, highSeverity: int, underInvestigation: int, resolved: int)
    requires Consistent(incidents, total, highSeverity, underInvestigation, resolved)
    requires FindIndex(incidents, EntryKey, incident.id).None?
    ensures Consistent(incidents + [incident], total + 1,
                       Shift(highSeverity, false, HighSeverity(incident)),
                       Shift(underInvestigation, false, UnderInvestigation(incident)),
                       Shift(resolved, false, Resolved(incident)))
  {
    CountAppend(incidents, [incident], HighSeverity);
    CountAppend(incidents, [incident], UnderInvestigation);
    CountAppend(incidents, [incident], Resolved);
    CacheWritesKeepIdsUnique(incidents, incident);
  }

  /** Replacing the incident at an index with one of the same id moves each counter by what left and what arrived. */
  lemma UpdateKeepsConsistent(incidents: seq<Entry>, i: nat, updated: Entry,
                              total: int, highSeverity: int, underInvestigation: int, resolved: int)
    requires i < |incidents| && incidents[i].id == updated.id
    requires Consistent(incidents, total, highSeverity, underInvestigation, resolved)
    ensures Consistent(incidents[i := updated], total,
                       Shift(highSeverity, HighSeverity(incidents[i]), HighSeverity(updated)),
                       Shift(underInvestigation, UnderInvestigation(incidents[i]), UnderInvestigation(updated)),
                       Shift(resolved, Resolved(incidents[i]), Resolved(updated)))
  {
    CountUpdate(incidents, i, updated, HighSeverity);
    CountUpdate(incidents, i, updated, UnderInvestigation);
    CountUpdate(incidents, i, updated, Resolved);
    assert FindIndex(incidents, EntryKey, updated.id) == Some(i);
    ReplaceSameKeyKeepsUnique(incidents, EntryKey, updated.id, updated);
  }

  /** Deleting a present id among unique ids takes one incident and its counts away. */
  lemma DeleteKeepsConsistent(incidents: seq<Entry>, id: Js.Value, gone: Entry,
                              total: int, highSeverity: int, underInvestigation: int, resolved: int)
    requires Consistent(incidents, total, highSeverity, underInvestigation, resolved)
    requires FindFirst(incidents, EntryKey, id) == Some(gone)
    ensures Consistent(RemoveAll(incidents, EntryKey, id), total - 1,
                       Shift(highSeverity, HighSeverity(gone), false),
                       Shift(underInvestigation, UnderInvestigation(gone), false),
                       Shift(resolved, Resolved(gone), false))
  {
    FindFirstAtIndex(incidents, EntryKey, id);
    DeleteCachedOnce(incidents, id);
    CountRemoveUnique(incidents, EntryKey, id, HighSeverity);
    CountRemoveUnique(incidents, EntryKey, id, UnderInvestigation);
    CountRemoveUnique(incidents, EntryKey, id, Resolved);
  }

  /** UpdateKeepsConsistent for a list that may not be consistent: consistency before gives consistency after. */
  lemma UpdateStep(incidents: seq<Entry>, i: nat, updated: Entry,
                   total: int, highSeverity: int, underInvestigation: int, resolved: int)
    requires i < |incidents| && incidents[i].id == updated.id
    ensures Consistent(incidents, total, highSeverity, underInvestigation, resolved) ==>
      Consistent(incidents[i := updated], total,
                 Shift(highSeverity, HighSeverity(incidents[i]), HighSeverity(updated)),
                 Shift(underInvestigation, UnderInvestigation(incidents[i]), UnderInvestigation(updated)),
                 Shift(resolved, Resolved(incidents[i]), Resolved(updated)))
  {
    if Consistent(incidents, total, highSeverity, underInvestigation, resolved) {
      UpdateKeepsConsistent(incidents, i, updated, total, highSeverity, underInvestigation, resolved);
    }
  }

  /** DeleteKeepsConsistent for a list that may not be consistent. */
  lemma DeleteStep(incidents: seq<Entry>, id: Js.Value, gone: Entry,
                   total: int, highSeverity: int, underInvestigation: int, resolved: int)
    requires FindFirst(incidents, EntryKey, id) == Some(gone)
    ensures Consistent(incidents, total, highSeverity, underInvestigation, resolved) ==>
      Consistent(RemoveAll(incidents, EntryKey, id), total - 1,
                 Shift(highSeverity, HighSeverity(gone), false),
                 Shift(underInvestigation, UnderInvestigation(gone), false),
                 Shift(resolved, Resolved(gone), false))
  {
    if Consistent(incidents, total, highSeverity, underInvestigation, resolved) {
      DeleteKeepsConsistent(incidents, id, gone, total, highSeverity, underInvestigation, resolved);
    }
  }

  class Slice {
    var incidents: seq<Entry>
    var totalIncidents: int
    var highSeverity: int
    var underInvestigation: int
    var resolved: int
    var selectedIncident: Js.Value
    var status: Js.Value
    var error: Js.Value

    function State(): IncidentState
      reads this
    {
      IncidentState(incidents, totalIncidents, highSeverity, underInvestigation, resolved, selectedIncident, status, error)
    }

    ghost predicate Valid()
      reads this
    {
      Consistent(incidents, totalIncidents, highSeverity, underInvestigation, resolved)
    }

    constructor ()
      ensures State() == InitialState && Valid()
    {
      incidents := [];
      totalIncidents := 0;
      highSeverity := 0;
      underInvestigation := 0;
      resolved := 0;
      selectedIncident := Js.Null;
      status := Js.Str("idle");
      error := Js.Null;
    }

    /** setIncidents: the list and its four counts. */
    method SetIncidents(list: seq<Entry>)
      modifies this
      ensures State() == old(State()).(incidents := list, totalIncidents := |list|,
                                       highSeverity := Count(list, HighSeverity),
                                       underInvestigation := Count(list, UnderInvestigation),
                                       resolved := Count(list, Resolved))
      ensures IdsUnique(list) ==> Valid()
    {
      incidents := list;
      totalIncidents := |list|;
      highSeverity := Count(list, HighSeverity);
      underInvestigation := Count(list, UnderInvestigation);
      resolved := Count(list, Resolved);
    }

    /** addIncident: the incident goes last and the counters it falls under go up by one. */
    method AddIncident(incident: Entry)
      modifies this
      ensures State() == old(State()).(incidents := old(incidents) + [incident],
                                       totalIncidents := old(totalIncidents) + 1,
                                       highSeverity := Shift(old(highSeverity), false, HighSeverity(incident)),
                                       underInvestigation := Shift(old(underInvestigation), false, UnderInvestigation(incident)),
                                       resolved := Shift(old(resolved), false, Resolved(incident)))
      ensures old(Valid()) && FindIndex(old(incidents), EntryKey, incident.id).None? ==> Valid()
    {
      if Valid() && FindIndex(incidents, EntryKey, incident.id).None? {
        AddKeepsConsistent(incidents, incident, totalIncidents, highSeverity, underInvestigation, resolved);
      }
      incidents := incidents + [incident];
      totalIncidents := totalIncidents + 1;
      if HighSeverity(incident) {
        highSeverity := highSeverity + 1;
      }
      if UnderInvestigation(incident) {
        underInvestigation := underInvestigation + 1;
      }
      if Resolved(incident) {
        resolved := resolved + 1;
      }
    }

    /**
     * updateIncident: the first incident with the payload's id is replaced
     * and each counter moves by what leaves and what arrives; an unknown id
     * changes nothing.
     */
    method UpdateIncident(updated: Entry)
      modifies this
      ensures selectedIncident == old(selectedIncident) && status == old(status) && error == old(error)
      ensures var i := FindIndex(old(incidents), EntryKey, updated.id);
        (i.None? ==> incidents == old(incidents) && totalIncidents == old(totalIncidents) &&
                     highSeverity == old(highSeverity) && underInvestigation == old(underInvestigation) &&
                     resolved == old(resolved)) &&
        (i.Some? ==> (var before := old(incidents)[i.value];
                      incidents == old(incidents)[i.value := updated] && totalIncidents == old(totalIncidents) &&
                      highSeverity == Shift(old(highSeverity), HighSeverity(before), HighSeverity(updated)) &&
                      underInvestigation == Shift(old(underInvestigation), UnderInvestigation(before), UnderInvestigation(updated)) &&
                      resolved == Shift(old(resolved), Resolved(before), Resolved(updated))))
      ensures old(Valid()) ==> Valid()
    {
      var index := FindIndex(incidents, EntryKey, updated.id);
      if index.Some? {
        var i := index.value;
        var before := incidents[i];
        // a counter drops when the old incident leaves it and rises when the new one joins it
        var high := AdjustCount(highSeverity, Js.Get(before.fields, "severity") != Js.Get(updated.fields, "severity"),
                                HighSeverity(before), HighSeverity(updated));
        var statusChanged := Js.Get(before.fields, "status") != Js.Get(updated.fields, "status");
        var open := AdjustCount(underInvestigation, statusChanged, UnderInvestigation(before), UnderInvestigation(updated));
        var closed := AdjustCount(resolved, statusChanged, Resolved(before), Resolved(updated));
        UpdateStep(incidents, i, updated, totalIncidents, highSeverity, underInvestigation, resolved);
        highSeverity, underInvestigation, resolved := high, open, closed;
        incidents := incidents[i := updated];
      }
    }

    /**
     * deleteIncident: the counters drop once for the first incident with
     * the id, while every incident with the id leaves the list.
     */
    method DeleteIncident(id: Js.Value)
      modifies this
      ensures selectedIncident == old(selectedIncident) && status == old(status) && error == old(error)
      ensures var found := FindFirst(old(incidents), EntryKey, id);
        (found.None? ==> incidents == old(incidents) && totalIncidents == old(totalIncidents) &&
                         highSeverity == old(highSeverity) && underInvestigation == old(underInvestigation) &&
                         resolved == old(resolved)) &&
        (found.Some? ==> incidents == RemoveAll(old(incidents), EntryKey, id) &&
                         totalIncidents == old(totalIncidents) - 1 &&
                         highSeverity == Shift(old(highSeverity), HighSeverity(found.value), false) &&
                         underInvestigation == Shift(old(underInvestigation), UnderInvestigation(found.value), false) &&
                         resolved == Shift(old(resolved), Resolved(found.value), false))
      ensures old(Valid()) ==> Valid()
    {
      var found := FindFirst(incidents, EntryKey, id);
      if found.Some? {
        var incident := found.value;
        // each counter the incident falls under drops by one
        DeleteStep(incidents, id, incident, totalIncidents, highSeverity, underInvestigation, resolved);
        highSeverity := Shift(highSeverity, HighSeverity(incident), false);
        underInvestigation := Shift(underInvestigation, UnderInvestigation(incident), false);
        resolved := Shift(resolved, Resolved(incident), false);
        incidents := RemoveAll(incidents, EntryKey, id);
        totalIncidents := totalIncidents - 1;
      }
    }

    method SetSelectedIncident(incident: Js.Value)
      modifies this
      ensures State() == old(State()).(selectedIncident := incident)
    {
      selectedIncident := incident;
    }

    method SetStatus(newStatus: Js.Value)
      modifies this
      ensures State() == old(State()).(status := newStatus)
    {
      status := newStatus;
    }

    /** setError: the error, and the status forced to 'failed'. */
    method SetError(e: Js.Value)
      modifies this
      ensures State() == old(State()).(error := e, status := Js.Str("failed"))
    {
      error := e;
      status := Js.Str("failed");
    }
  }
}
