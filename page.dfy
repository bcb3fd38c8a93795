/** The dashboard page's state and the handlers that update it: the throttled
    fetch of all incidents, the optimistic resolve, selection, seeking and the
    date change, with the projections handed to the timeline. */
module Page {
  import opened Options
  import opened Seqs
  import opened Calendar
  import opened Incidents
  import opened Layout

  /** A non-forced fetch this soon after the last successful one is skipped. */
  const FetchThrottleMs: int := 5000

  /** What the request for all incidents can come back with. */
  datatype FetchResponse =
    | Fetched(data: seq<Incident>)
    | HttpError(status: int)
    | NetworkError

  // ---------------------------------------------------------------------
  // The optimistic resolve

  /** The record update inside `handleIncidentResolve`: every record with the
      id gets the new resolved flag; nothing else changes. */
  function ResolveUpdate(list: seq<Incident>, id: int, v: bool): (r: seq<Incident>)
    ensures |r| == |list|
    ensures forall i :: 0 <= i < |list| ==> r[i].(resolved := list[i].resolved) == list[i]
    ensures forall i :: 0 <= i < |list| && list[i].id == id ==> r[i].resolved == v
    ensures forall i :: 0 <= i < |list| && list[i].id != id ==> r[i] == list[i]
  {
    if list == [] then []
    else
      [if list[0].id == id then list[0].(resolved := v) else list[0]] + ResolveUpdate(list[1..], id, v)
  }

  /** Resolving an id no record has leaves the list as it is. */
  lemma ResolveAbsent(list: seq<Incident>, id: int, v: bool)
    requires forall i :: 0 <= i < |list| ==> list[i].id != id
    ensures ResolveUpdate(list, id, v) == list
  {
    var r := ResolveUpdate(list, id, v);
    assert forall i :: 0 <= i < |list| ==> r[i] == list[i];
  }

  /** With unique ids, flipping a record and then setting its old flag back
      restores the original list: the revert the incident list relies on. */
  lemma ResolveRevert(list: seq<Incident>, k: int)
    requires UniqueIds(list) && 0 <= k < |list|
    ensures var id, old_ := list[k].id, list[k].resolved;
            ResolveUpdate(ResolveUpdate(list, id, !old_), id, old_) == list
  {
    var id, old_ := list[k].id, list[k].resolved;
    var mid := ResolveUpdate(list, id, !old_);
    var r := ResolveUpdate(mid, id, old_);
    forall i | 0 <= i < |list|
      ensures r[i] == list[i]
    {
      if i != k {
        assert list[i].id != id by {
          if i < k { assert list[i].id != list[k].id; } else { assert list[k].id != list[i].id; }
        }
      }
    }
  }

  /** Applying the same resolve twice is the same as applying it once. */
  lemma ResolveIdempotent(list: seq<Incident>, id: int, v: bool)
    ensures ResolveUpdate(ResolveUpdate(list, id, v), id, v) == ResolveUpdate(list, id, v)
  {
    var once := ResolveUpdate(list, id, v);
    var twice := ResolveUpdate(once, id, v);
    forall i | 0 <= i < |list|
      ensures twice[i] == once[i]
    {
      if list[i].id == id {
        assert once[i] == list[i].(resolved := v);
      }
    }
  }

  /** The selected incident follows the resolve only when it is the record. */
  function ResolveSelected(sel: Option<Incident>, id: int, v: bool): (r: Option<Incident>)
    ensures r.Some? <==> sel.Some?
    ensures sel.Some? && sel.value.id == id ==> r == Some(sel.value.(resolved := v))
    ensures sel.Some? && sel.value.id != id ==> r == sel
  {
    if sel.Some? && sel.value.id == id then Some(sel.value.(resolved := v)) else sel
  }

  /** Flipping the selection and then setting the flag leaves it with that
      flag, whatever it held before. */
  lemma ResolveSelectedTwice(sel: Option<Incident>, id: int, v: bool)
    ensures ResolveSelected(ResolveSelected(sel, id, !v), id, v) == ResolveSelected(sel, id, v)
  {
  }

  // ---------------------------------------------------------------------
  // Projections

  /** The camera fields the timeline keeps. */
  function ProjectIncident(inc: Incident): (t: TimelineIncident)
    ensures t.id == inc.id && t.kind == inc.kind && t.severity == inc.severity
    ensures t.tsStart == inc.tsStart && t.tsEnd == inc.tsEnd
    ensures t.camera == CameraRef(inc.camera.id, inc.camera.name, inc.camera.location)
  {
    TimelineIncident(inc.id, inc.kind, inc.tsStart, inc.tsEnd, inc.severity,
                     CameraRef(inc.camera.id, inc.camera.name, inc.camera.location))
  }

  /** `timelineIncidents`: one projected record per incident, in order. */
  function TimelineIncidents(all: seq<Incident>): (r: seq<TimelineIncident>)
    ensures |r| == |all|
    ensures forall i :: 0 <= i < |all| ==>
              r[i].id == all[i].id && r[i].kind == all[i].kind && r[i].severity == all[i].severity &&
              r[i].tsStart == all[i].tsStart && r[i].tsEnd == all[i].tsEnd &&
              r[i].camera.id == all[i].camera.id && r[i].camera.name == all[i].camera.name &&
              r[i].camera.location == all[i].camera.location
  {
    Map(ProjectIncident, all)
  }

  /** `selectedDateIncidents`: the incidents starting on the selected date, in
      their original order. */
  function SelectedDateIncidents(all: seq<Incident>, date: string): (r: seq<Incident>)
    requires IsDateFormat(date)
    ensures IsSubsequence(r, all)
    ensures forall x :: x in r <==> x in all && OnDay(x.tsStart, DayOfDate(date))
  {
    var f := (x: Incident) => OnDay(x.tsStart, DayOfDate(date));
    FilterIsSubsequence(f, all);
    forall x ensures x in Filter(f, all) <==> x in all && f(x) {
      FilterMembership(f, all, x);
    }
    Filter(f, all)
  }

  /** The page's day test is the timeline's: projecting the page's list for a
      date gives exactly the timeline incidents that start on that day, and
      everything the timeline draws for that day is among them. */
  lemma SameDayTestAsTimeline(all: seq<Incident>, date: string, vs: int, ve: int)
    requires IsDateFormat(date)
    ensures Map(ProjectIncident, SelectedDateIncidents(all, date))
            == Filter((t: TimelineIncident) => OnDay(t.tsStart, DayOfDate(date)), TimelineIncidents(all))
    ensures forall t :: t in VisibleIncidents(TimelineIncidents(all), DayOfDate(date), vs, ve) ==>
              t in Map(ProjectIncident, SelectedDateIncidents(all, date))
  {
    var day := DayOfDate(date);
    var f := (x: Incident) => OnDay(x.tsStart, day);
    var g := (t: TimelineIncident) => OnDay(t.tsStart, day);
    MapFilterCommute(ProjectIncident, f, g, all);
    forall t | t in VisibleIncidents(TimelineIncidents(all), day, vs, ve)
      ensures t in Map(ProjectIncident, SelectedDateIncidents(all, date))
    {
      FilterKeeps(g, TimelineIncidents(all), t);
    }
  }

  // ---------------------------------------------------------------------
  // The page state

  datatype PageState = PageState(
    selectedIncident: Option<Incident>,
    allIncidents: seq<Incident>,
    currentTime: int,
    selectedDate: string,
    loading: bool,
    lastFetchTime: int)

  class Dashboard {
    var selectedIncident: Option<Incident>
    var allIncidents: seq<Incident>
    var currentTime: int
    var selectedDate: string
    var loading: bool
    var lastFetchTime: int

    function State(): PageState
      reads this
    {
      PageState(selectedIncident, allIncidents, currentTime, selectedDate, loading, lastFetchTime)
    }

    /** The selected date is always a `YYYY-MM-DD` string. */
    predicate Valid()
      reads this
    {
      IsDateFormat(selectedDate)
    }

    /** The first render: nothing selected or loaded, the cursor at `now`, and
        the date of `now` selected. */
    constructor (now: int, today: string)
      requires IsDateFormat(today) && DayOfDate(today) == DayOf(now)
      ensures Valid()
      ensures State() == PageState(None, [], now, today, true, 0)
    {
      selectedIncident := None;
      allIncidents := [];
      currentTime := now;
      selectedDate := today;
      loading := true;
      lastFetchTime := 0;
    }

    /** `fetchAllIncidents`: skipped when not forced and the last successful
        fetch was under five seconds ago; otherwise the list becomes the
        response's data (and the fetch time `now`), or empty on any failure. */
    method FetchAllIncidents(force: bool, now: int, response: FetchResponse) returns (fetched: bool)
      requires Valid()
      modifies this
      ensures Valid()
      ensures fetched <==> force || now - old(lastFetchTime) >= FetchThrottleMs
      ensures !fetched ==> State() == old(State())
      ensures fetched && response.Fetched? ==>
                State() == old(State()).(allIncidents := response.data, lastFetchTime := now, loading := false)
      ensures fetched && !response.Fetched? ==>
                State() == old(State()).(allIncidents := [], loading := false)
    {
      if !force && now - lastFetchTime < FetchThrottleMs {
        return false;
      }
      loading := true;
      match response {
        case Fetched(data) =>
          allIncidents := data;
          lastFetchTime := now;
        case HttpError(_) =>
          allIncidents := [];
        case NetworkError =>
          allIncidents := [];
      }
      loading := false;
      return true;
    }

    /** `handleIncidentResolve`: the optimistic update of one record by id, in
        the list and in the selection. */
    method HandleIncidentResolve(id: int, v: bool)
      requires Valid()
      modifies this
      ensures Valid()
      ensures State() == old(State()).(allIncidents := ResolveUpdate(old(allIncidents), id, v),
                                       selectedIncident := ResolveSelected(old(selectedIncident), id, v))
    {
      allIncidents := ResolveUpdate(allIncidents, id, v);
      selectedIncident := ResolveSelected(selectedIncident, id, v);
    }

    /** `handleTimeChange`: the timeline's cursor becomes the page's. */
    method HandleTimeChange(t: int)
      requires Valid()
      modifies this
      ensures Valid()
      ensures State() == old(State()).(currentTime := t)
    {
      currentTime := t;
    }

    /** `handleIncidentSelect`: select the incident and seek to its start. */
    method HandleIncidentSelect(inc: Incident)
      requires Valid()
      modifies this
      ensures Valid()
      ensures State() == old(State()).(selectedIncident := Some(inc), currentTime := inc.tsStart)
    {
      selectedIncident := Some(inc);
      currentTime := inc.tsStart;
    }

    /** `handleDateChange`: a string that is not `YYYY-MM-DD`, or that the
        date engine rejects, changes nothing; an accepted date is selected,
        the selection is cleared and the cursor moves to that day's noon. */
    method HandleDateChange(date: string, engineAccepts: bool) returns (accepted: bool)
      requires Valid()
      modifies this
      ensures Valid()
      ensures accepted <==> IsDateFormat(date) && engineAccepts
      ensures !accepted ==> State() == old(State())
      ensures accepted ==>
                State() == old(State()).(selectedDate := date, selectedIncident := None,
                                         currentTime := Noon(DayOfDate(date)))
      ensures accepted ==> OnDay(currentTime, DayOfDate(selectedDate))
    {
      if !IsDateFormat(date) || !engineAccepts {
        return false;
      }
      selectedDate := date;
      selectedIncident := None;
      currentTime := Noon(DayOfDate(date));
      return true;
    }

    /** The incidents counted for the selected date. */
    function DateIncidents(): (r: seq<Incident>)
      requires Valid()
      reads this
      ensures forall x :: x in r <==> x in allIncidents && OnDay(x.tsStart, DayOfDate(selectedDate))
    {
      SelectedDateIncidents(allIncidents, selectedDate)
    }
  }
}
