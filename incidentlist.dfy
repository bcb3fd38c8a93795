/** The incident list: the resolved/unresolved tabs, the optimistic
    resolve/reopen toggle with its in-flight set, the `m:ss` duration text and
    the colour lookups. */
module IncidentList {
  import opened Options
  import opened Seqs
  import opened Calendar
  import opened Incidents
  import opened Layout
  import opened Page

  // ---------------------------------------------------------------------
  // Tabs

  function Unresolved(all: seq<Incident>): (r: seq<Incident>)
    ensures IsSubsequence(r, all)
    ensures forall x :: x in r <==> x in all && !x.resolved
  {
    var f := (x: Incident) => !x.resolved;
    FilterIsSubsequence(f, all);
    forall x ensures x in Filter(f, all) <==> x in all && f(x) {
      FilterMembership(f, all, x);
    }
    Filter(f, all)
  }

  function Resolved(all: seq<Incident>): (r: seq<Incident>)
    ensures IsSubsequence(r, all)
    ensures forall x :: x in r <==> x in all && x.resolved
  {
    var f := (x: Incident) => x.resolved;
    FilterIsSubsequence(f, all);
    forall x ensures x in Filter(f, all) <==> x in all && f(x) {
      FilterMembership(f, all, x);
    }
    Filter(f, all)
  }

  /** The two tabs split the list: no record is on both, every record is on
      one, and their lengths add up to the whole. */
  lemma TabsPartition(all: seq<Incident>)
    ensures |Unresolved(all)| + |Resolved(all)| == |all|
    ensures forall x :: !(x in Unresolved(all) && x in Resolved(all))
    ensures forall x :: x in all ==> x in Unresolved(all) || x in Resolved(all)
  {
    FilterPartition((x: Incident) => x.resolved, (x: Incident) => !x.resolved, all);
  }

  /** `currentIncidents`: the unresolved tab exactly when it is the active one. */
  function CurrentIncidents(all: seq<Incident>, activeTab: string): (r: seq<Incident>)
    ensures activeTab == "unresolved" ==> r == Unresolved(all)
    ensures activeTab != "unresolved" ==> r == Resolved(all)
  {
    if activeTab == "unresolved" then Unresolved(all) else Resolved(all)
  }

  /** With unique ids, resolving an unresolved record moves it from the
      unresolved tab to the resolved one. */
  lemma ResolveMovesTab(all: seq<Incident>, k: int)
    requires UniqueIds(all) && 0 <= k < |all| && !all[k].resolved
    ensures var after := ResolveUpdate(all, all[k].id, true);
            all[k].(resolved := true) in Resolved(after) &&
            forall x :: x in Unresolved(after) ==> x.id != all[k].id
  {
    var after := ResolveUpdate(all, all[k].id, true);
    assert after[k] == all[k].(resolved := true);
    forall x | x in Unresolved(after)
      ensures x.id != all[k].id
    {
      var i :| 0 <= i < |after| && after[i] == x;
      if i != k {
        assert all[i].id != all[k].id by {
          if i < k { assert all[i].id != all[k].id; } else { assert all[k].id != all[i].id; }
        }
      }
    }
  }

  // ---------------------------------------------------------------------
  // Looking up the record to toggle

  /** `allIncidents.find(inc => inc.id === id)`: the first record with the id. */
  function FindById(all: seq<Incident>, id: int): (r: Option<Incident>)
    ensures r.None? <==> forall i :: 0 <= i < |all| ==> all[i].id != id
    ensures r.Some? ==> exists k :: 0 <= k < |all| && all[k] == r.value &&
                          r.value.id == id && forall i :: 0 <= i < k ==> all[i].id != id
  {
    if all == [] then None
    else if all[0].id == id then Some(all[0])
    else
      var rest := FindById(all[1..], id);
      if rest.Some? then
        var k :| 0 <= k < |all[1..]| && all[1..][k] == rest.value &&
                 rest.value.id == id && forall i :: 0 <= i < k ==> all[1..][i].id != id;
        assert all[k + 1] == rest.value;
        rest
      else rest
  }

  // ---------------------------------------------------------------------
  // The optimistic toggle

  /** How the resolve request ends: an OK response, a non-OK response, or a
      thrown fetch. */
  datatype ResolveOutcome = ResolveOk | ResolveNotOk(status: int) | ResolveThrown

  class IncidentListView {
    /** Ids with a resolve request in flight; their buttons are disabled. */
    var resolvingIds: set<int>
    var activeTab: string
    /** The `onIncidentResolve` calls made, in order. */
    var reported: seq<(int, bool)>

    constructor ()
      ensures resolvingIds == {} && activeTab == "unresolved" && reported == []
    {
      resolvingIds := {};
      activeTab := "unresolved";
      reported := [];
    }

    /** The resolve button of a record is disabled while its request runs. */
    predicate ButtonDisabled(id: int)
      reads this
    {
      id in resolvingIds
    }

    method HandleTabChange(value: string)
      modifies this
      ensures activeTab == value
      ensures resolvingIds == old(resolvingIds) && reported == old(reported)
    {
      activeTab := value;
    }

    /** The part of `handleResolve` before the request: look the record up
        in the page's list; if it is there, report and apply the flipped flag
        and mark the id as in flight. Returns the flag it had. */
    method StartResolve(page: Dashboard, id: int) returns (prior: Option<bool>)
      requires page.Valid()
      modifies this, page
      ensures page.Valid()
      ensures var found := FindById(old(page.allIncidents), id);
              prior == (if found.Some? then Some(found.value.resolved) else None)
      ensures prior.None? ==> resolvingIds == old(resolvingIds) && reported == old(reported) &&
                              page.State() == old(page.State())
      ensures prior.Some? ==>
                && reported == old(reported) + [(id, !prior.value)]
                && resolvingIds == old(resolvingIds) + {id}
                && page.State() == old(page.State()).(
                     allIncidents := ResolveUpdate(old(page.allIncidents), id, !prior.value),
                     selectedIncident := ResolveSelected(old(page.selectedIncident), id, !prior.value))
      ensures activeTab == old(activeTab)
    {
      var current := FindById(page.allIncidents, id);
      if current.None? {
        return None;
      }
      prior := Some(current.value.resolved);
      reported := reported + [(id, !current.value.resolved)];
      page.HandleIncidentResolve(id, !current.value.resolved);
      resolvingIds := resolvingIds + {id};
    }

    /** The part after the request: a non-OK response reports and applies the
        old flag again; a thrown fetch is caught without a revert; in every
        case the id leaves the in-flight set. */
    method FinishResolve(page: Dashboard, id: int, prior: bool, outcome: ResolveOutcome)
      requires page.Valid()
      modifies this, page
      ensures page.Valid()
      ensures resolvingIds == old(resolvingIds) - {id} && activeTab == old(activeTab)
      ensures outcome.ResolveNotOk? ==>
                && reported == old(reported) + [(id, prior)]
                && page.State() == old(page.State()).(
                     allIncidents := ResolveUpdate(old(page.allIncidents), id, prior),
                     selectedIncident := ResolveSelected(old(page.selectedIncident), id, prior))
      ensures !outcome.ResolveNotOk? ==> reported == old(reported) && page.State() == old(page.State())
    {
      if outcome.ResolveNotOk? {
        reported := reported + [(id, prior)];
        page.HandleIncidentResolve(id, prior);
      }
      resolvingIds := resolvingIds - {id};
    }

    /** `handleResolve` when nothing else touches the page in between: an
        absent id changes nothing; otherwise the record is flipped, and a
        non-OK response restores the page's list exactly (ids being unique),
        while an OK response or a thrown fetch keeps the flipped flag. The id
        is not in flight afterwards. */
    method HandleResolve(page: Dashboard, id: int, outcome: ResolveOutcome)
      requires page.Valid() && UniqueIds(page.allIncidents)
      modifies this, page
      ensures page.Valid()
      ensures var found := FindById(old(page.allIncidents), id);
              && (found.None? ==>
                    page.State() == old(page.State()) && reported == old(reported) &&
                    resolvingIds == old(resolvingIds))
              && (found.Some? ==> resolvingIds == old(resolvingIds) - {id})
              && (found.Some? && outcome.ResolveNotOk? ==>
                    page.State() == old(page.State()).(
                      selectedIncident := ResolveSelected(old(page.selectedIncident), id, found.value.resolved)) &&
                    reported == old(reported) + [(id, !found.value.resolved)] + [(id, found.value.resolved)])
              && (found.Some? && !outcome.ResolveNotOk? ==>
                    page.State() == old(page.State()).(
                      allIncidents := ResolveUpdate(old(page.allIncidents), id, !found.value.resolved),
                      selectedIncident := ResolveSelected(old(page.selectedIncident), id, !found.value.resolved)) &&
                    reported == old(reported) + [(id, !found.value.resolved)])
      ensures activeTab == old(activeTab)
    {
      ghost var before := page.allIncidents;
      ghost var selected := page.selectedIncident;
      var prior := StartResolve(page, id);
      if prior.Some? {
        FinishResolve(page, id, prior.value, outcome);
        if outcome.ResolveNotOk? {
          RevertFound(before, id);
          ResolveSelectedTwice(selected, id, prior.value);
        }
      }
    }
  }

  /** With unique ids, flipping the record found for an id and setting its
      old flag back restores the list. */
  lemma RevertFound(all: seq<Incident>, id: int)
    requires UniqueIds(all) && FindById(all, id).Some?
    ensures var v := FindById(all, id).value.resolved;
            ResolveUpdate(ResolveUpdate(all, id, !v), id, v) == all
  {
    var k :| 0 <= k < |all| && all[k] == FindById(all, id).value && all[k].id == id;
    ResolveRevert(all, k);
  }

  /** With unique ids, the record found for an id is the one record carrying
      it, so the flag the toggle flips is that record's. */
  lemma FindByUniqueId(all: seq<Incident>, k: int)
    requires UniqueIds(all) && 0 <= k < |all|
    ensures FindById(all, all[k].id) == Some(all[k])
  {
    var found := FindById(all, all[k].id);
    var j :| 0 <= j < |all| && all[j] == found.value && found.value.id == all[k].id &&
             forall i :: 0 <= i < j ==> all[i].id != all[k].id;
    if j < k {
      assert all[j].id != all[k].id;
    }
  }

  // ---------------------------------------------------------------------
  // The duration text

  function DigitChar(d: int): (c: char)
    requires 0 <= d <= 9
    ensures IsDigit(c) && DigitValue(c) == d
  {
    ('0' as int + d) as char
  }

  /** `Number.prototype.toString()` on a non-negative integer. */
  function NatToString(n: nat): (s: string)
    ensures |s| >= 1 && forall i :: 0 <= i < |s| ==> IsDigit(s[i])
    ensures s[0] == '0' ==> n == 0
    decreases n
  {
    if n < 10 then [DigitChar(n)] else NatToString(n / 10) + [DigitChar(n % 10)]
  }

  /** `Number.prototype.toString()` on an integer. */
  function IntToString(i: int): (s: string)
    ensures i >= 0 ==> s == NatToString(i)
    ensures i < 0 ==> s == "-" + NatToString(-i)
  {
    if i < 0 then "-" + NatToString(-i) else NatToString(i)
  }

  /** The value of a string of decimal digits. */
  function ParseNat(s: string): (n: nat)
    requires forall i :: 0 <= i < |s| ==> IsDigit(s[i])
  {
    if s == [] then 0 else ParseNat(s[..|s| - 1]) * 10 + DigitValue(s[|s| - 1])
  }

  lemma {:induction false} ParseNatToString(n: nat)
    ensures ParseNat(NatToString(n)) == n
    decreases n
  {
    var s := NatToString(n);
    if n >= 10 {
      ParseNatToString(n / 10);
      assert s[..|s| - 1] == NatToString(n / 10);
    }
  }

  /** `padStart(2, "0")`. */
  function PadStart2(s: string): (r: string)
    ensures |r| == if |s| >= 2 then |s| else 2
    ensures r[|r| - |s|..] == s
    ensures forall i :: 0 <= i < |r| - |s| ==> r[i] == '0'
  {
    if |s| >= 2 then s else if |s| == 1 then "0" + s else "00"
  }

  /** JavaScript's `%`: the remainder takes the sign of the dividend. */
  function JsRem(a: int, b: int): (r: int)
    requires b > 0
    ensures a >= 0 ==> 0 <= r < b && a == (a / b) * b + r
    ensures a < 0 ==> -b < r <= 0
  {
    if a >= 0 then a % b else -((-a) % b)
  }

  /** `formatDuration`: whole seconds between the instants, shown as minutes,
      a colon, and the seconds padded to two characters. */
  function FormatDuration(start: int, end: int): string {
    var d := (end - start) / 1000;
    IntToString(d / 60) + ":" + PadStart2(IntToString(JsRem(d, 60)))
  }

  /** Reads an `m:ss` text back to a number of seconds. */
  function ParseDuration(s: string): Option<int> {
    if |s| >= 4 && s[|s| - 3] == ':' &&
       (forall i :: 0 <= i < |s| - 3 ==> IsDigit(s[i])) &&
       IsDigit(s[|s| - 2]) && IsDigit(s[|s| - 1])
    then Some(ParseNat(s[..|s| - 3]) * 60 + DigitValue(s[|s| - 2]) * 10 + DigitValue(s[|s| - 1]))
    else None
  }

  /** For an end no earlier than the start, the text is the whole minutes,
      a colon and exactly two second digits below 60, and it reads back as
      the number of whole seconds elapsed. */
  lemma FormatDurationShape(start: int, end: int)
    requires start <= end
    ensures var d, text := (end - start) / 1000, FormatDuration(start, end);
            && |text| >= 4 && text[|text| - 3] == ':'
            && text[..|text| - 3] == NatToString(d / 60)
            && IsDigit(text[|text| - 2]) && IsDigit(text[|text| - 1])
            && DigitValue(text[|text| - 2]) * 10 + DigitValue(text[|text| - 1]) == d % 60
            && ParseDuration(text) == Some(d)
  {
    var d := (end - start) / 1000;
    var m, sec := d / 60, d % 60;
    assert JsRem(d, 60) == sec;
    SecondsText(sec);
    var ms, a, b := NatToString(m), DigitChar(sec / 10), DigitChar(sec % 10);
    assert FormatDuration(start, end) == ms + ":" + [a, b];
    ColonText(ms, a, b);
    ParseNatToString(m);
  }

  /** Seconds below a minute pad to exactly their two decimal digits. */
  lemma SecondsText(sec: int)
    requires 0 <= sec < 60
    ensures PadStart2(IntToString(sec)) == [DigitChar(sec / 10), DigitChar(sec % 10)]
  {
    var a, b := DigitChar(sec / 10), DigitChar(sec % 10);
    if sec >= 10 {
      assert NatToString(sec / 10) == [a];
      assert NatToString(sec) == [a] + [b];
      assert IntToString(sec) == [a, b];
    } else {
      assert sec / 10 == 0 && sec % 10 == sec;
      assert IntToString(sec) == [b];
      assert a == '0';
    }
  }

  /** Where the pieces of `ms + ":" + [a, b]` sit. */
  lemma ColonText(ms: string, a: char, b: char)
    requires |ms| >= 1
    ensures var text := ms + ":" + [a, b];
            && |text| == |ms| + 3 && text[|text| - 3] == ':'
            && text[..|text| - 3] == ms && text[|text| - 2] == a && text[|text| - 1] == b
  {
    var text := ms + ":" + [a, b];
    assert text[..|text| - 3] == ms;
  }

  // ---------------------------------------------------------------------
  // Colours

  const GrayBorder: string := "border-l-gray-500"
  const GraySeverity: string := "text-gray-600 bg-gray-50 border-gray-200"

  /** `getIncidentColor` of the list: the card's left border by category. */
  function ListBorderColor(kind: string): string {
    match kind
    case "Gun Threat" => "border-l-red-500"
    case "Unauthorised Access" => "border-l-orange-500"
    case "Face Recognised" => "border-l-blue-500"
    case "Suspicious Activity" => "border-l-yellow-500"
    case "Motion Detection" => "border-l-green-500"
    case "Equipment Tampering" => "border-l-purple-500"
    case _ => GrayBorder
  }

  /** `getSeverityColor`: the severity badge's classes. */
  function SeverityBadgeColor(severity: string): string {
    match severity
    case "critical" => "text-red-600 bg-red-50 border-red-200"
    case "high" => "text-orange-600 bg-orange-50 border-orange-200"
    case "medium" => "text-yellow-600 bg-yellow-50 border-yellow-200"
    case "low" => "text-green-600 bg-green-50 border-green-200"
    case _ => GraySeverity
  }

  /** The list and the timeline recognise the same categories and severities:
      each lookup falls back to gray exactly when the timeline's does. */
  lemma ColoursAgreeWithTimeline(kind: string, severity: string)
    ensures ListBorderColor(kind) == GrayBorder <==> KindHex(kind).None?
    ensures SeverityBadgeColor(severity) == GraySeverity <==> SeverityHex(severity).None?
    ensures ListBorderColor(kind) == GrayBorder && SeverityBadgeColor(severity) == GraySeverity
            <==> IncidentColor(severity, kind) == Gray
  {
  }
}
