/** The timeline's incident layout: which incidents are visible, which camera
    rows exist, and the rectangle, colour and selection flag of each block. */
module Layout {
  import opened Options
  import opened Seqs
  import opened Calendar
  import opened Incidents
  import opened TimeAxis

  // ---------------------------------------------------------------------
  // Visibility

  /** On the selected day, and overlapping the viewport strictly. */
  predicate IsVisible(inc: TimelineIncident, day: int, vs: int, ve: int) {
    OnDay(inc.tsStart, day) && inc.tsStart < ve && inc.tsEnd > vs
  }

  /** `visibleIncidents`: the incidents drawn for a day and viewport. */
  function VisibleIncidents(incs: seq<TimelineIncident>, day: int, vs: int, ve: int): (r: seq<TimelineIncident>)
    ensures IsSubsequence(r, incs)
    ensures forall x :: x in r <==> x in incs && IsVisible(x, day, vs, ve)
  {
    var f := x => IsVisible(x, day, vs, ve);
    FilterIsSubsequence(f, incs);
    forall x ensures x in Filter(f, incs) <==> x in incs && f(x) {
      FilterMembership(f, incs, x);
    }
    Filter(f, incs)
  }

  /** Filtering the visible list again changes nothing. */
  lemma VisibleIdempotent(incs: seq<TimelineIncident>, day: int, vs: int, ve: int)
    ensures VisibleIncidents(VisibleIncidents(incs, day, vs, ve), day, vs, ve)
            == VisibleIncidents(incs, day, vs, ve)
  {
    FilterIdempotent(x => IsVisible(x, day, vs, ve), incs);
  }

  // ---------------------------------------------------------------------
  // Camera rows

  /** `findIndex` on camera id: the first position with that id, or -1. */
  function IndexOfCamera(cams: seq<CameraRef>, id: int): (k: int)
    ensures -1 <= k < |cams|
    ensures k == -1 <==> forall i :: 0 <= i < |cams| ==> cams[i].id != id
    ensures k >= 0 ==> cams[k].id == id && forall i :: 0 <= i < k ==> cams[i].id != id
  {
    if cams == [] then -1
    else if cams[0].id == id then 0
    else
      var k := IndexOfCamera(cams[1..], id);
      if k == -1 then -1 else k + 1
  }

  predicate DistinctIds(cams: seq<CameraRef>) {
    forall i, j :: 0 <= i < j < |cams| ==> cams[i].id != cams[j].id
  }

  predicate StrictlyIncreasing(cams: seq<CameraRef>) {
    forall i, j :: 0 <= i < j < |cams| ==> cams[i].id < cams[j].id
  }

  /** `Map.set(camera.id, camera)` on an insertion-ordered table: an existing
      key keeps its position and takes the new value; a new key goes last. */
  function TableSet(cams: seq<CameraRef>, c: CameraRef): seq<CameraRef> {
    var k := IndexOfCamera(cams, c.id);
    if k == -1 then cams + [c] else cams[k := c]
  }

  /** `new Map(incidents.map(inc => [inc.camera.id, inc.camera])).values()`. */
  function CameraTable(incs: seq<TimelineIncident>): seq<CameraRef> {
    if incs == [] then []
    else TableSet(CameraTable(incs[..|incs| - 1]), incs[|incs| - 1].camera)
  }

  /** The camera object of the last incident with the given camera id. */
  function LastCamera(incs: seq<TimelineIncident>, id: int): Option<CameraRef> {
    if incs == [] then None
    else if incs[|incs| - 1].camera.id == id then Some(incs[|incs| - 1].camera)
    else LastCamera(incs[..|incs| - 1], id)
  }

  /** One `Map.set` keeps the ids distinct: the entry for the new camera's
      id becomes that camera and every other entry stays where it was. */
  lemma TableSetEntries(t: seq<CameraRef>, c: CameraRef)
    requires DistinctIds(t)
    ensures var u := TableSet(t, c);
            && u != [] && DistinctIds(u)
            && (forall i :: 0 <= i < |u| && u[i].id == c.id ==> u[i] == c)
            && (forall i :: 0 <= i < |u| && u[i].id != c.id ==> i < |t| && u[i] == t[i])
  {
  }

  /** After one `Map.set`, the ids present are the old ones plus the new
      camera's. */
  lemma TableSetIndex(t: seq<CameraRef>, c: CameraRef, id: int)
    ensures IndexOfCamera(TableSet(t, c), id) != -1 <==> id == c.id || IndexOfCamera(t, id) != -1
  {
    var u := TableSet(t, c);
    var k := IndexOfCamera(t, c.id);
    if id != c.id {
      if IndexOfCamera(t, id) != -1 {
        assert u[IndexOfCamera(t, id)].id == id;
      }
      if IndexOfCamera(u, id) != -1 {
        assert t[IndexOfCamera(u, id)].id == id;
      }
    } else if k == -1 {
      assert u[|t|].id == id;
    } else {
      assert u[k].id == id;
    }
  }

  /** The table has one entry per camera id the incidents mention, holding the
      camera object seen last for that id, and is empty only for no incidents. */
  lemma {:induction false} CameraTableFacts(incs: seq<TimelineIncident>)
    ensures DistinctIds(CameraTable(incs))
    ensures forall i :: 0 <= i < |CameraTable(incs)| ==>
              LastCamera(incs, CameraTable(incs)[i].id) == Some(CameraTable(incs)[i])
    ensures forall id :: IndexOfCamera(CameraTable(incs), id) != -1 <==> LastCamera(incs, id) != None
    ensures CameraTable(incs) == [] <==> incs == []
  {
    if incs != [] {
      var p, x := incs[..|incs| - 1], incs[|incs| - 1];
      CameraTableFacts(p);
      TableSetEntries(CameraTable(p), x.camera);
      assert CameraTable(incs) == TableSet(CameraTable(p), x.camera);
      forall id ensures LastCamera(incs, id) == if x.camera.id == id then Some(x.camera) else LastCamera(p, id) {
      }
      forall id ensures IndexOfCamera(CameraTable(incs), id) != -1 <==> LastCamera(incs, id) != None {
        TableSetIndex(CameraTable(p), x.camera, id);
      }
    }
  }

  /** Every incident's camera id is present in its own table. */
  lemma {:induction false} LastCameraPresent(incs: seq<TimelineIncident>, k: int)
    requires 0 <= k < |incs|
    ensures LastCamera(incs, incs[k].camera.id) != None
  {
    if k != |incs| - 1 && incs[|incs| - 1].camera.id != incs[k].camera.id {
      LastCameraPresent(incs[..|incs| - 1], k);
    }
  }

  /** One step of the stable sort by id: place `c` before the first larger id. */
  function InsertById(c: CameraRef, s: seq<CameraRef>): (r: seq<CameraRef>)
    ensures multiset(r) == multiset(s) + multiset{c}
  {
    if s == [] then [c]
    else if c.id <= s[0].id then [c] + s
    else
      assert s == [s[0]] + s[1..];
      [s[0]] + InsertById(c, s[1..])
  }

  lemma {:induction false} InsertKeepsIncreasing(c: CameraRef, s: seq<CameraRef>)
    requires StrictlyIncreasing(s) && forall x :: x in s ==> x.id != c.id
    ensures StrictlyIncreasing(InsertById(c, s))
  {
    if s == [] {
    } else if c.id <= s[0].id {
      forall x | x in s ensures c.id < x.id {
        var j :| 0 <= j < |s| && s[j] == x;
        assert s[0].id <= s[j].id;
      }
      PrependKeepsIncreasing(c, s);
    } else {
      InsertKeepsIncreasing(c, s[1..]);
      var t := InsertById(c, s[1..]);
      forall x | x in t ensures s[0].id < x.id {
        assert x in multiset(t);
      }
      PrependKeepsIncreasing(s[0], t);
    }
  }

  lemma PrependKeepsIncreasing(h: CameraRef, t: seq<CameraRef>)
    requires StrictlyIncreasing(t) && forall x :: x in t ==> h.id < x.id
    ensures StrictlyIncreasing([h] + t)
  {
    var r := [h] + t;
    forall i, j | 0 <= i < j < |r| ensures r[i].id < r[j].id {
      assert r[j] == t[j - 1];
      if i > 0 {
        assert r[i] == t[i - 1];
      }
    }
  }

  /** `.sort((a, b) => a.id - b.id)`, as insertion sort: a permutation. */
  function SortById(s: seq<CameraRef>): (r: seq<CameraRef>)
    ensures multiset(r) == multiset(s)
  {
    if s == [] then []
    else
      assert s == [s[0]] + s[1..];
      InsertById(s[0], SortById(s[1..]))
  }

  /** Sorting a list whose ids are distinct orders the ids strictly. */
  lemma {:induction false} SortByIdStrict(s: seq<CameraRef>)
    requires DistinctIds(s)
    ensures StrictlyIncreasing(SortById(s))
  {
    if s != [] {
      var rest := SortById(s[1..]);
      SortByIdStrict(s[1..]);
      forall x | x in rest ensures x.id != s[0].id {
        assert x in multiset(s[1..]);
        var j :| 0 <= j < |s[1..]| && s[1..][j] == x;
        assert s[j + 1] == x;
      }
      InsertKeepsIncreasing(s[0], rest);
    }
  }

  /** The placeholder rows drawn when there are no incidents. */
  const DefaultCameras: seq<CameraRef> := [
    CameraRef(1, "Shop Floor A", "Main Production Area"),
    CameraRef(2, "Vault Camera", "Security Vault - Level B1"),
    CameraRef(3, "Main Entrance", "Building Entrance - Ground Floor"),
    CameraRef(4, "Parking Lot", "Employee Parking Area"),
    CameraRef(5, "Server Room", "IT Infrastructure - Level 2")
  ]

  /** Two strictly id-ordered lists with the same cameras start alike. */
  lemma SameFirst(a: seq<CameraRef>, b: seq<CameraRef>)
    requires a != [] && b != []
    requires StrictlyIncreasing(a) && StrictlyIncreasing(b) && multiset(a) == multiset(b)
    ensures a[0] == b[0]
  {
    assert a[0] in multiset(b) && b[0] in multiset(a);
    var i :| 0 <= i < |b| && b[i] == a[0];
    var j :| 0 <= j < |a| && a[j] == b[0];
    assert a[0].id <= a[j].id;
    assert b[0].id <= b[i].id;
    assert i == 0;
  }

  lemma TailMultiset(s: seq<CameraRef>)
    requires s != []
    ensures multiset(s[1..]) == multiset(s) - multiset{s[0]}
  {
    assert s == [s[0]] + s[1..];
  }

  lemma {:induction false} SortedUnique(a: seq<CameraRef>, b: seq<CameraRef>)
    requires StrictlyIncreasing(a) && StrictlyIncreasing(b) && multiset(a) == multiset(b)
    ensures a == b
  {
    if a == [] || b == [] {
      assert |multiset(a)| == |a| && |multiset(b)| == |b|;
    } else {
      SameFirst(a, b);
      TailMultiset(a);
      TailMultiset(b);
      SortedUnique(a[1..], b[1..]);
      assert a == [a[0]] + a[1..] && b == [b[0]] + b[1..];
    }
  }

  /** `cameras`: the table's cameras followed by the placeholders when the
      table is empty, sorted by id. */
  function Cameras(incs: seq<TimelineIncident>): seq<CameraRef> {
    var table := CameraTable(incs);
    SortById(table + (if |table| > 0 then [] else DefaultCameras))
  }

  /** With no incidents the rows are the five placeholders, in id order. */
  lemma PlaceholdersWhenEmpty(incs: seq<TimelineIncident>)
    requires incs == []
    ensures Cameras(incs) == DefaultCameras
  {
    assert CameraTable(incs) == [];
    assert Cameras(incs) == SortById(DefaultCameras) by {
      assert [] + DefaultCameras == DefaultCameras;
    }
    DefaultsOrdered();
    SortByIdStrict(DefaultCameras);
    SortedUnique(SortById(DefaultCameras), DefaultCameras);
  }

  lemma DefaultsOrdered()
    ensures StrictlyIncreasing(DefaultCameras) && DistinctIds(DefaultCameras)
  {
    forall i, j | 0 <= i < j < |DefaultCameras| ensures DefaultCameras[i].id < DefaultCameras[j].id {
      assert forall k :: 0 <= k < |DefaultCameras| ==> DefaultCameras[k].id == k + 1;
    }
  }

  /** With incidents, the rows are a permutation of the incidents' camera
      table: no placeholder is mixed in. */
  lemma RowsAreTheTable(incs: seq<TimelineIncident>)
    requires incs != []
    ensures multiset(Cameras(incs)) == multiset(CameraTable(incs))
  {
    CameraTableFacts(incs);
    assert CameraTable(incs) + [] == CameraTable(incs);
  }

  /** The camera rows are ordered strictly by id. Placeholders are used
      exactly when there are no incidents; otherwise each row is the camera
      object seen last for its id, and a camera id has a row exactly when some
      incident mentions it. */
  lemma CameraRowsFacts(incs: seq<TimelineIncident>)
    ensures StrictlyIncreasing(Cameras(incs))
    ensures CameraTable(incs) == [] <==> incs == []
    ensures incs == [] ==> Cameras(incs) == DefaultCameras
    ensures incs != [] ==> forall i :: 0 <= i < |Cameras(incs)| ==>
              LastCamera(incs, Cameras(incs)[i].id) == Some(Cameras(incs)[i])
    ensures incs != [] ==> forall id :: IndexOfCamera(Cameras(incs), id) != -1 <==> LastCamera(incs, id) != None
  {
    CameraTableFacts(incs);
    if incs == [] {
      PlaceholdersWhenEmpty(incs);
      DefaultsOrdered();
    } else {
      RowsOfIncidents(incs);
    }
  }

  lemma RowsOfIncidents(incs: seq<TimelineIncident>)
    requires incs != []
    ensures StrictlyIncreasing(Cameras(incs))
    ensures forall i :: 0 <= i < |Cameras(incs)| ==>
              LastCamera(incs, Cameras(incs)[i].id) == Some(Cameras(incs)[i])
    ensures forall id :: IndexOfCamera(Cameras(incs), id) != -1 <==> LastCamera(incs, id) != None
  {
    CameraTableFacts(incs);
    var table, rows := CameraTable(incs), Cameras(incs);
    RowsAreTheTable(incs);
    assert rows == SortById(table) by {
      assert table + [] == table;
    }
    SortByIdStrict(table);
    forall i | 0 <= i < |rows| ensures LastCamera(incs, rows[i].id) == Some(rows[i]) {
      assert rows[i] in multiset(table);
      var j :| 0 <= j < |table| && table[j] == rows[i];
    }
    forall id ensures IndexOfCamera(rows, id) != -1 <==> LastCamera(incs, id) != None {
      RowPresence(table, rows, id);
    }
  }

  lemma RowPresence(table: seq<CameraRef>, rows: seq<CameraRef>, id: int)
    requires multiset(rows) == multiset(table)
    ensures IndexOfCamera(rows, id) != -1 <==> IndexOfCamera(table, id) != -1
  {
    var k := IndexOfCamera(table, id);
    if k != -1 {
      assert table[k] in multiset(rows);
      var j :| 0 <= j < |rows| && rows[j] == table[k];
    }
    var k' := IndexOfCamera(rows, id);
    if k' != -1 {
      assert rows[k'] in multiset(table);
      var j :| 0 <= j < |table| && table[j] == rows[k'];
    }
  }

  /** Every incident has a row of its own: the row-0 fallback is never taken
      for an incident drawn from the same list the rows were built from. */
  lemma EveryIncidentHasARow(incs: seq<TimelineIncident>, inc: TimelineIncident)
    requires inc in incs
    ensures IndexOfCamera(Cameras(incs), inc.camera.id) != -1
  {
    var k :| 0 <= k < |incs| && incs[k] == inc;
    LastCameraPresent(incs, k);
    CameraRowsFacts(incs);
  }

  // ---------------------------------------------------------------------
  // Colours

  const Gray: string := "#6b7280"

  /** The severity colours. */
  function SeverityHex(severity: string): Option<string> {
    match severity
    case "critical" => Some("#dc2626")
    case "high" => Some("#ea580c")
    case "medium" => Some("#ca8a04")
    case "low" => Some("#16a34a")
    case _ => None
  }

  /** The per-category fallback colours. */
  function KindHex(kind: string): Option<string> {
    match kind
    case "Gun Threat" => Some("#ef4444")
    case "Unauthorised Access" => Some("#f97316")
    case "Face Recognised" => Some("#3b82f6")
    case "Suspicious Activity" => Some("#eab308")
    case "Motion Detection" => Some("#22c55e")
    case "Equipment Tampering" => Some("#a855f7")
    case _ => None
  }

  /** `getIncidentColor`: severity decides first, then category, then gray;
      gray appears exactly when neither is recognised. */
  function IncidentColor(severity: string, kind: string): (c: string)
    ensures SeverityHex(severity).Some? ==> c == SeverityHex(severity).value
    ensures SeverityHex(severity).None? && KindHex(kind).Some? ==> c == KindHex(kind).value
    ensures c == Gray <==> SeverityHex(severity).None? && KindHex(kind).None?
  {
    match SeverityHex(severity)
    case Some(c) => c
    case None =>
      match KindHex(kind)
      case Some(c) => c
      case None => Gray
  }

  // ---------------------------------------------------------------------
  // Blocks

  const HeaderHeight: int := 50
  const CameraRowHeight: int := 50
  const MinBlockWidth: real := 8.0

  datatype Block = Block(
    incident: TimelineIncident,
    startX: real,
    width: real,
    y: int,
    height: int,
    color: string,
    isSelected: bool,
    startTime: int,
    endTime: int)

  /** The row an incident is drawn in: its camera's position, or row 0 when
      the camera is missing. */
  function RowOf(cams: seq<CameraRef>, id: int): (row: int)
    ensures 0 <= row && (cams != [] ==> row < |cams|)
    ensures IndexOfCamera(cams, id) != -1 ==> cams[row].id == id
    ensures IndexOfCamera(cams, id) == -1 ==> row == 0
  {
    var k := IndexOfCamera(cams, id);
    if k == -1 then 0 else k
  }

  /** One entry of `processedIncidents`. The block starts at the incident's
      start, is at least 8 pixels wide and reaches at least to the incident's
      end, and sits strictly inside its camera's row band. */
  function LayoutBlock(inc: TimelineIncident, cams: seq<CameraRef>, vs: int, dur: int, selectedId: Option<int>): (b: Block)
    requires dur > 0
    ensures b.incident == inc && b.startTime == inc.tsStart && b.endTime == inc.tsEnd
    ensures b.startX == TimeToX(vs, dur, inc.tsStart) && 0.0 <= b.startX <= Width
    ensures b.width >= MinBlockWidth && b.startX + b.width >= TimeToX(vs, dur, inc.tsEnd)
    ensures b.width == MinBlockWidth || b.startX + b.width == TimeToX(vs, dur, inc.tsEnd)
    ensures var top := HeaderHeight + RowOf(cams, inc.camera.id) * CameraRowHeight;
            top < b.y && b.y + b.height < top + CameraRowHeight && b.height > 0
    ensures b.isSelected <==> selectedId == Some(inc.id)
    ensures b.color == IncidentColor(inc.severity, inc.kind)
  {
    var startX := TimeToX(vs, dur, inc.tsStart);
    var endX := TimeToX(vs, dur, inc.tsEnd);
    var width := if endX - startX > MinBlockWidth then endX - startX else MinBlockWidth;
    var row := RowOf(cams, inc.camera.id);
    Block(inc, startX, width,
          HeaderHeight + row * CameraRowHeight + 12, CameraRowHeight - 24,
          IncidentColor(inc.severity, inc.kind),
          selectedId == Some(inc.id),
          inc.tsStart, inc.tsEnd)
  }

  /** `processedIncidents`: one block per visible incident, in order. */
  function ProcessIncidents(visible: seq<TimelineIncident>, cams: seq<CameraRef>, vs: int, dur: int, selectedId: Option<int>): (r: seq<Block>)
    requires dur > 0
    ensures |r| == |visible|
    ensures forall i :: 0 <= i < |r| ==> r[i] == LayoutBlock(visible[i], cams, vs, dur, selectedId)
    ensures selectedId.None? ==> forall i :: 0 <= i < |r| ==> !r[i].isSelected
  {
    Map(inc => LayoutBlock(inc, cams, vs, dur, selectedId), visible)
  }

  /** Blocks for the visible part of an incident list, laid out against the
      rows built from that same list, sit in their own camera's row. */
  lemma BlocksInOwnRow(incs: seq<TimelineIncident>, day: int, vs: int, dur: int, selectedId: Option<int>, i: int)
    requires dur > 0
    requires 0 <= i < |VisibleIncidents(incs, day, vs, vs + dur)|
    ensures var blocks := ProcessIncidents(VisibleIncidents(incs, day, vs, vs + dur), Cameras(incs), vs, dur, selectedId);
            var inc := blocks[i].incident;
            var row := (blocks[i].y - HeaderHeight - 12) / CameraRowHeight;
            0 <= row < |Cameras(incs)| && Cameras(incs)[row].id == inc.camera.id
  {
    var vis := VisibleIncidents(incs, day, vs, vs + dur);
    var cams := Cameras(incs);
    assert vis[i] in vis;
    EveryIncidentHasARow(incs, vis[i]);
    var row := RowOf(cams, vis[i].camera.id);
    var b := ProcessIncidents(vis, cams, vs, dur, selectedId)[i];
    assert b == LayoutBlock(vis[i], cams, vs, dur, selectedId);
    assert b.y - HeaderHeight - 12 == row * CameraRowHeight;
    DivUnique(row * CameraRowHeight, CameraRowHeight, row);
  }
}
