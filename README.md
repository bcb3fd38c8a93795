# Incident dashboard: timeline, page state, incident list and incident routes

This project models the core of a CCTV incident dashboard in Dafny and proves properties of that model. Four parts are covered:

- **The incident timeline view-model** (`components/incident-timeline.tsx`). This is the selected day, the zoom ladder, the viewport, the playback cursor, panning, the focus on a selected incident, the time axis (instant ↔ pixel offset), the time markers, the camera rows and the incident blocks.
- **The dashboard page's state** (`app/page.tsx`). This covers the throttled fetch of all incidents, the optimistic resolve, selection, seeking and the date change. It also covers the two projections the page hands to the timeline and to the list.
- **The incident list** (`components/incident-list.tsx`). This covers the resolved/unresolved tabs and the optimistic resolve, with its revert and its in-flight set. It also covers the duration text and the category and severity colours.
- **The per-record transform of the two incident routes** (`app/api/incidents/all/route.ts`, `app/api/incidents/route.ts`). The routes turn database enum values into display values and read the `resolved` query parameter.

Representation:

- Instants are integer milliseconds since the epoch at a fixed UTC offset of zero (module `Calendar`).
- The timeline's selected date is an epoch day number.
- The page keeps its `YYYY-MM-DD` string and converts it with the proleptic Gregorian calendar (`DaysFromCivil`).
- Pixel offsets and zoom hours are exact `real`s.
- Classes hold the state the source keeps in React state:
  - `Timeline.TimelineView`
  - `Page.Dashboard`
  - `IncidentList.IncidentListView`
- Each handler is a method whose postcondition gives the whole new state through a `State()` snapshot.
- The host callbacks (`onTimeChange`, `onIncidentSelect`, `onDateChange`) are recorded in order in a `notifications` sequence.
- The list's `onIncidentResolve` calls are recorded in `reported`.

The focus effect (`components/incident-timeline.tsx:129-163`) moves the cursor to the incident but does not call `onTimeChange`. The model's focus therefore records no time notification.

Two behaviours of the code are recorded under "## Findings" and corrected in the rest of the model:

- The focus effect centres the window on the incident's whole hour, truncated by `setHours`. At the 1h and 30m levels that window can end before the incident. The as-written centring is `Timeline.Recentre`. The class methods use the corrected `Timeline.CentreOn`, which centres on the instant.
- The routes' category transform keeps upper-case enum names upper-case. The as-written transform is `Api.TypeAsWritten`. The route members use the corrected title case, `Api.DisplayType`.

The members that use a corrected definition are listed under "## Left out".

## Model

| member | source | states |
|---|---|---|
| Calendar.DayEnd | components/incident-timeline.tsx:287-288 | `setHours(23, 59, 59, 999)` is one millisecond before the next midnight |
| Calendar.HourOf | components/incident-timeline.tsx:141 | `getHours()` is in 0..23 and the instant lies inside that hour of its own day |
| Calendar.DayOfIsTheDay | components/incident-timeline.tsx:131-133 | the midnight-to-23:59:59.999 day test holds exactly for the day `toISOString().split("T")[0]` names |
| Calendar.CivilAnchors | app/page.tsx:167-172 | the date-string day count puts 1970-01-01 at day 0 and 2024-01-21 at day 19743 |
| Calendar.NextDay | app/page.tsx:167-172 | consecutive days of a month get consecutive day numbers |
| Calendar.MonthRollsOver | app/page.tsx:167-172 | for every year and month, the first of the next month is exactly the month's length after the first of this month; December rolls into January of the next year, and February has 29 days exactly in Gregorian leap years |
| Zoom.DurationMs | components/incident-timeline.tsx:103-107 | the viewport width `hours * 60 * 60 * 1000` is a positive whole number of milliseconds, divisible by 4 |
| Zoom.DurationStrictlyDecreasing | components/incident-timeline.tsx:48-55 | every deeper zoom level shows a strictly shorter window |
| Zoom.TickIncrementMs | components/incident-timeline.tsx:363 | one tick advances one minute times the speed at windows of at most an hour, five minutes times the speed otherwise, never less than 30 s |
| Zoom.MarkerIntervalMinutes | components/incident-timeline.tsx:213-229 | the marker spacing is one of 5, 30, 60 or 120 minutes, and it is 5 exactly at windows of at most an hour |
| TimeAxis.TimeToX | components/incident-timeline.tsx:188-195 | `timeToX` lies in [0, 1200]; it is 0 at or before the window start and 1200 at or after its end, and proportional in between |
| TimeAxis.XToTime | components/incident-timeline.tsx:197-204 | `xToTime` lies inside the window and is the exact instant truncated toward zero by `new Date`: rounded down after 1970 and up before it, by less than a millisecond |
| TimeAxis.ExactRoundTrip | components/incident-timeline.tsx:188-204 | in exact arithmetic `timeToX(xToTime(x)) == x` for every x on the axis |
| TimeAxis.RoundTripWithinAMillisecond | components/incident-timeline.tsx:188-204 | with whole-millisecond instants, the round trip moves x by less than one millisecond's width: left for instants after 1970, right for instants before it |
| TimeAxis.XToTimeClamps | components/incident-timeline.tsx:200 | offsets off either end of the axis select the window's start or end |
| TimeAxis.TimeToXMonotone | components/incident-timeline.tsx:188-195 | later instants are never drawn further left |
| TimeAxis.FirstMarkerTime | components/incident-timeline.tsx:232-236 | the first marker is in the window start's hour, on a whole minute that is a multiple of the interval, and is the last such minute at or before the start's minute; it is at most an hour before the start, and less than one interval before it for intervals up to an hour |
| TimeAxis.TimeMarkers | components/incident-timeline.tsx:207-251 | the loop emits one marker per interval from the rounded-down start through the window end (their number is fixed by the window), each with x = `timeToX` of its time and the hour flag exactly on whole hours |
| TimeAxis.MarkersCoverWindow | components/incident-timeline.tsx:207-251 | the first marker is at or before the window start, the last at or before its end, and one more interval would pass the end |
| Layout.VisibleIncidents | components/incident-timeline.tsx:284-302 | the visible incidents keep their order and are exactly those starting on the day and overlapping the window strictly |
| Layout.VisibleIdempotent | components/incident-timeline.tsx:284-302 | filtering the visible list again changes nothing |
| Layout.IndexOfCamera | components/incident-timeline.tsx:486 | `findIndex` returns the first position with the id, or -1 exactly when no camera has it |
| Layout.CameraTableFacts | components/incident-timeline.tsx:167 | the id-keyed Map holds one entry per camera id, which is the camera object of the last incident with that id; it is empty exactly when there are no incidents |
| Layout.LastCameraPresent | components/incident-timeline.tsx:167 | every incident's camera id is in the Map |
| Layout.InsertById | components/incident-timeline.tsx:181 | one insertion step of the sort by id keeps the cameras as a multiset |
| Layout.InsertKeepsIncreasing | components/incident-timeline.tsx:181 | inserting a new id into a list ordered by id keeps it ordered |
| Layout.SortById | components/incident-timeline.tsx:181 | the sort by id is a permutation |
| Layout.SortByIdStrict | components/incident-timeline.tsx:181 | sorting cameras with distinct ids orders them strictly by id |
| Layout.SortedUnique | components/incident-timeline.tsx:181 | two strictly id-ordered lists with the same cameras are equal, so the sort's result does not depend on the input order |
| Layout.PlaceholdersWhenEmpty | components/incident-timeline.tsx:170-181 | with no incidents the rows are the five placeholder cameras, in id order |
| Layout.DefaultsOrdered | components/incident-timeline.tsx:173-179 | the placeholder cameras have distinct ids, listed in increasing order |
| Layout.RowsAreTheTable | components/incident-timeline.tsx:166-182 | with incidents, the rows are a permutation of the Map's cameras, with no placeholders |
| Layout.CameraRowsFacts | components/incident-timeline.tsx:166-182 | the rows are strictly id-ordered, are the placeholders exactly when there are no incidents, and otherwise hold one row per camera id the incidents mention |
| Layout.RowsOfIncidents | components/incident-timeline.tsx:166-182 | with incidents, each row is the last-seen camera object for its id, and the row ids are exactly the incidents' camera ids |
| Layout.EveryIncidentHasARow | components/incident-timeline.tsx:486-487 | every incident's camera has a row, so the row-0 fallback is never taken for a listed incident |
| Layout.IncidentColor | components/incident-timeline.tsx:253-281 | a known severity decides the colour; otherwise a known category decides; the colour is gray exactly when neither is known |
| Layout.RowOf | components/incident-timeline.tsx:486-487 | the row is the camera's position when it has one, and row 0 otherwise |
| Layout.LayoutBlock | components/incident-timeline.tsx:470-505 | a block starts at `timeToX(start)`, is at least 8 px wide and reaches `timeToX(end)`, sits in its camera's row, is selected exactly when its id is the selected one, and takes `getIncidentColor` |
| Layout.ProcessIncidents | components/incident-timeline.tsx:470-505 | one block per visible incident, in order; with no selection no block is selected |
| Layout.BlocksInOwnRow | components/incident-timeline.tsx:470-505 | every block drawn for the day and window lies in the row of its own camera |
| TimeAxis.Truncate | components/incident-timeline.tsx:143 | ToIntegerOrInfinity on a finite number, as `setHours` and `new Date` apply it, moves it toward zero by less than one |
| Timeline.RecentreBounds | components/incident-timeline.tsx:141-161 | the focus's window as written ends by the end of the incident's day and starts no later than the incident; only at the 24h level does it start one millisecond before midnight |
| Timeline.ZoomBounds | components/incident-timeline.tsx:48-55 | the 24h level is a whole day; every other level is at most 12h, and all are at least 30 min |
| Timeline.RecentreMissesIncident | components/incident-timeline.tsx:141-161 | as written, at the 1h and 30m levels, an incident at or after 01:00 is at or after the window's end |
| Timeline.RecentreCounterexample | components/incident-timeline.tsx:141-161 | as written, focusing an incident at 10:20 at the 1h level gives the window 09:00–10:00, in which the incident is not visible |
| Timeline.CentreOn | components/incident-timeline.tsx:141-161 | the corrected focus window contains the instant, lies within its day (from midnight at the narrower levels), and is centred on the instant when not clamped |
| Timeline.TickStep | components/incident-timeline.tsx:358-379 | a tick advances a playing cursor by one increment, or stops playback and keeps the cursor when that would pass the window end; a paused player is unchanged |
| Timeline.TicksAdvance | components/incident-timeline.tsx:358-379 | n ticks advance the cursor by n increments while that stays inside the window; the cursor never passes the window end, and it is always a whole number of increments from where it began |
| Timeline.TenTicksAtOneHour | components/incident-timeline.tsx:358-379 | at the 1h level and 1x speed, ten ticks inside the window move the cursor ten minutes |
| Timeline.PanLeftStart | components/incident-timeline.tsx:428-439 | panning left moves the start a quarter window back exactly when that start is not before midnight, and otherwise not at all |
| Timeline.PanRightStart | components/incident-timeline.tsx:441-453 | panning right moves the start a quarter window forward exactly when the new window ends by 23:59:59.999, and otherwise not at all |
| Timeline.PanRoundTrip | components/incident-timeline.tsx:428-453 | for a window inside the day, an accepted pan either way is undone by a pan the other way |
| Timeline.PanStaysInDay | components/incident-timeline.tsx:428-453 | a window inside the day stays inside the day after either pan |
| Timeline.TimelineView.ViewportEnd | components/incident-timeline.tsx:103-107 | `viewportEnd` is exactly the zoom level's hours after the start |
| Timeline.TimelineView.constructor | components/incident-timeline.tsx:67-86 | the initial state has the host's date (or today's), the cursor at today's noon, the window at today's midnight, the 24h zoom, 1x speed, no playback, no drag and nothing notified |
| Timeline.TimelineView.DateResetEffect | components/incident-timeline.tsx:117-126 | a date change moves the window to the day's midnight and the cursor to its noon; both lie on the selected day |
| Timeline.TimelineView.SyncSelectedDate | components/incident-timeline.tsx:110-114 | a host date that differs from the local one replaces it; otherwise nothing changes |
| Timeline.TimelineView.FocusEffect | components/incident-timeline.tsx:129-163 | a selected incident switches to its day (one date notification only when the day differs), centres the window on it with the corrected `CentreOn` and puts the cursor at its start |
| Timeline.TimelineView.SelectIncident | components/incident-timeline.tsx:110-163 | after the focus and date-reset effects, the day is the incident's, the window is centred on it by the corrected `CentreOn` with the cursor at its start, and one date notification is sent exactly when the day changed; the result depends only on the incident, so selecting it again changes nothing |
| Timeline.TimelineView.ZoomIn | components/incident-timeline.tsx:413-418 | zooming in below the deepest level goes one level deeper and strictly narrows the window; at the deepest level nothing changes |
| Timeline.TimelineView.ZoomOut | components/incident-timeline.tsx:420-425 | zooming out above the widest level goes one level wider and strictly widens the window; at the widest level nothing changes |
| Timeline.TimelineView.ZoomInThenFocus | components/incident-timeline.tsx:163 | a zoom change re-runs the focus, so with a selection the new window is centred on it by the corrected `CentreOn` |
| Timeline.TimelineView.PanLeft | components/incident-timeline.tsx:428-439 | the new state is the old one with the left-panned start |
| Timeline.TimelineView.PanRight | components/incident-timeline.tsx:441-453 | the new state is the old one with the right-panned start |
| Timeline.TimelineView.TogglePlay | components/incident-timeline.tsx:550 | the play button flips playback and changes nothing else |
| Timeline.TimelineView.SetSpeed | components/incident-timeline.tsx:571-577 | the speed selector sets the speed and changes nothing else |
| Timeline.TimelineView.Tick | components/incident-timeline.tsx:358-379 | one interval firing is a `TickStep`, notifying the new time only when the cursor moved; a moved cursor stays within the window |
| Timeline.TimelineView.TimelineClick | components/incident-timeline.tsx:304-318 | a click while dragging does nothing; otherwise it seeks to `xToTime` of the click, inside the window, and notifies that time |
| Timeline.TimelineView.MouseDown | components/incident-timeline.tsx:320-324 | pressing the handle starts a drag and stops playback |
| Timeline.TimelineView.MouseMove | components/incident-timeline.tsx:326-340 | while dragging, the cursor follows the pointer clamped to the axis and each move is notified; otherwise nothing changes |
| Timeline.TimelineView.MouseUp | components/incident-timeline.tsx:342-344 | releasing ends the drag |
| Timeline.TimelineView.JumpToStart | components/incident-timeline.tsx:382-386 | the cursor goes to the window start, is notified, and playback stops |
| Timeline.TimelineView.JumpToEnd | components/incident-timeline.tsx:388-392 | the cursor goes to the window end, is notified, and playback stops |
| Timeline.TimelineView.JumpToIncident | components/incident-timeline.tsx:394-404 | the cursor goes to the incident's start; the time and then the selection are notified, and playback stops |
| Timeline.TimelineView.FocusOnSelectedIncident | components/incident-timeline.tsx:406-410 | with a selection it jumps to that incident, and otherwise nothing changes |
| Timeline.TimelineView.ChangeDate | components/incident-timeline.tsx:456-464 | the picker's day is notified and playback stops; a new day is adopted and resets the window to its midnight and the cursor to its noon, while the same day changes nothing else |
| Timeline.TimelineView.CurrentX | components/incident-timeline.tsx:466 | the cursor's offset lies on the axis and is `timeToX` of the cursor |
| Timeline.TimelineView.Visible | components/incident-timeline.tsx:284-302 | the drawn incidents are exactly those visible for the current day and window |
| Timeline.TimelineView.Blocks | components/incident-timeline.tsx:470-505 | one block per drawn incident, in order, with the selection flag iff its id is selected; each starts at `timeToX` of its incident's start in the current window and sits strictly inside the band of the row whose camera is the incident's |
| Timeline.TimelineView.Markers | components/incident-timeline.tsx:207-251 | the markers are one per interval from the rounded-down window start through the window end (their number fixed by the window), each at x = `timeToX` of its time and flagged exactly on whole hours; there is at least one, the first at or before the window start, and all lie on the axis |
| Page.ResolveUpdate | app/page.tsx:87-100 | the optimistic update gives every record with the id the new flag and leaves every other record, and every other field, as it was |
| Page.ResolveAbsent | app/page.tsx:87-100 | resolving an id no record has leaves the list unchanged |
| Page.ResolveRevert | app/page.tsx:87-100 | with unique ids, flipping a record and setting its old flag back restores the list |
| Page.ResolveIdempotent | app/page.tsx:87-100 | applying the same resolve twice is the same as applying it once |
| Page.ResolveSelected | app/page.tsx:97-99 | the selection follows the resolve only when it is the resolved record |
| Page.ProjectIncident | app/page.tsx:150-164 | the timeline record keeps the id, category, severity, start, end and the camera's id, name and location |
| Page.TimelineIncidents | app/page.tsx:150-164 | one projected record per incident, in order |
| Page.SelectedDateIncidents | app/page.tsx:167-177 | the selected date's incidents keep their order and are exactly those starting on that date |
| Page.SameDayTestAsTimeline | app/page.tsx:167-177 | the page's day filter commutes with the projection, and everything the timeline draws for the day is among the projected day's incidents |
| Page.Dashboard.constructor | app/page.tsx:28-35 | the initial state has no selection, no incidents, the cursor now, today's date, loading on, and no previous fetch |
| Page.Dashboard.FetchAllIncidents | app/page.tsx:38-79 | a non-forced fetch within 5 s of the last success does nothing; otherwise the list becomes the data and the fetch time moves, or the list is emptied on an HTTP or network error, and loading ends |
| Page.Dashboard.HandleIncidentResolve | app/page.tsx:87-100 | the list and the selection get the optimistic update, and nothing else changes |
| Page.Dashboard.HandleTimeChange | app/page.tsx:103-105 | the timeline's time becomes the page's cursor |
| Page.Dashboard.HandleIncidentSelect | app/page.tsx:108-114 | the incident is selected and the cursor moves to its start |
| Page.Dashboard.HandleDateChange | app/page.tsx:117-147 | a date is accepted exactly when it is `YYYY-MM-DD` and the date engine accepts it; an accepted date is selected, the selection is cleared and the cursor is that day's noon; a rejected one changes nothing |
| Page.Dashboard.DateIncidents | app/page.tsx:167-177 | the incidents counted for the selected date are exactly those starting on it |
| IncidentList.Unresolved | components/incident-list.tsx:232 | the unresolved tab keeps order and holds exactly the unresolved records |
| IncidentList.Resolved | components/incident-list.tsx:233 | the resolved tab keeps order and holds exactly the resolved records |
| IncidentList.TabsPartition | components/incident-list.tsx:230-241 | the two tabs split the list: their sizes add up, and every record is on exactly one |
| IncidentList.CurrentIncidents | components/incident-list.tsx:234 | the unresolved tab is shown exactly when it is the active one |
| IncidentList.ResolveMovesTab | components/incident-list.tsx:117-121 | with unique ids, resolving an unresolved record puts it on the resolved tab and leaves no record with its id on the unresolved tab |
| IncidentList.FindById | components/incident-list.tsx:114-115 | `find` returns the first record with the id, or nothing exactly when no record has it |
| IncidentList.FindByUniqueId | components/incident-list.tsx:114-115 | with unique ids, the record found for an id is the one record carrying it |
| IncidentList.IncidentListView.constructor | components/incident-list.tsx:47-48 | the list starts with no request in flight, the unresolved tab active and nothing reported |
| IncidentList.IncidentListView.HandleTabChange | components/incident-list.tsx:105-107 | the tab becomes the value, and nothing else changes |
| IncidentList.IncidentListView.StartResolve | components/incident-list.tsx:109-121 | an id with no record changes nothing; otherwise the id goes into the in-flight set and the flipped flag is applied to the page and reported |
| IncidentList.IncidentListView.FinishResolve | components/incident-list.tsx:122-144 | a non-OK response applies and reports the old flag; an OK response or an exception changes nothing on the page; either way the id leaves the in-flight set |
| IncidentList.IncidentListView.HandleResolve | components/incident-list.tsx:109-147 | a missing id changes nothing, in-flight set included; after a non-OK response the page's state is as before except that a selection of that id holds the record's original flag, with the flip and the revert reported; after an OK response or an exception the record and a selection of it stay flipped and the rest of the page is unchanged, with one report; a found id is no longer in flight; the tab never changes |
| IncidentList.JsRem | components/incident-list.tsx:224 | JavaScript's `%` agrees with the Euclidean remainder on a non-negative dividend and takes the dividend's sign otherwise |
| IncidentList.ParseNatToString | components/incident-list.tsx:226 | reading back the decimal text of a number gives the number |
| IncidentList.PadStart2 | components/incident-list.tsx:226 | `padStart(2, "0")` left-pads with zeros to length two and always keeps the whole text at its end, unchanged when it is already two or more characters long |
| IncidentList.FormatDurationShape | components/incident-list.tsx:218-227 | for an end no earlier than the start, the duration text is the whole minutes, a colon and two digits giving the seconds mod 60, and it reads back as the elapsed whole seconds |
| IncidentList.ColoursAgreeWithTimeline | components/incident-list.tsx:168-200 | the list's border and badge colours fall back to gray on exactly the categories and severities the timeline does not colour |
| Api.ReplaceUnderscores | app/api/incidents/all/route.ts:11 | `replace(/_/g, " ")` changes every underscore to a space, changes nothing else, and leaves no underscore |
| Api.CapitalizeWords | app/api/incidents/all/route.ts:11 | `replace(/\b\w/g, toUpperCase)` upper-cases exactly the characters that begin a word |
| Api.CapitalizeKeepsWords | app/api/incidents/all/route.ts:11 | upper-casing word starts does not move word boundaries |
| Api.CapitalizeIdempotent | app/api/incidents/all/route.ts:11 | capitalising twice equals capitalising once |
| Api.Lower | app/api/incidents/all/route.ts:12 | `toLowerCase()` lower-cases every character in place |
| Api.LowerIdempotent | app/api/incidents/all/route.ts:12 | a lower-cased string has no upper-case letter, and lower-casing again changes nothing |
| Api.TypeAsWritten | app/api/incidents/all/route.ts:11 | the as-written category transform keeps length, leaves no underscore and upper-cases exactly the word starts |
| Api.TypeAsWrittenIdempotent | app/api/incidents/all/route.ts:11 | the as-written transform applied twice equals once |
| Api.TwoWordsAsWritten | app/api/incidents/all/route.ts:11 | as written, a two-word upper-case enum name `A_B` becomes `A B` unchanged in case |
| Api.GunThreatAsWritten | app/api/incidents/all/route.ts:11 | as written, `GUN_THREAT` is sent as "GUN THREAT" |
| Api.TypeAsWrittenMissesColourTables | app/api/incidents/all/route.ts:11 | as written, the category sent for `GUN_THREAT` has no timeline colour and gets the list's gray border |
| Api.DisplayType | app/api/incidents/all/route.ts:11 | the corrected transform keeps length, leaves no underscore, and makes every letter upper-case exactly when it begins a word; character by character, it is the lower-cased, underscore-free text with exactly its word starts upper-cased |
| Api.DisplayTypeIdempotent | app/api/incidents/all/route.ts:11 | title-casing twice equals title-casing once |
| Api.TwoWordsTitle | app/api/incidents/all/route.ts:11 | a two-word enum name `A_B` becomes its two words in title case, separated by a space |
| Api.DisplayTypeMatchesColourTables | app/api/incidents/all/route.ts:11 | `GUN_THREAT` is sent as "Gun Threat", which the timeline colours red and the list borders red |
| Api.TransformIncident | app/api/incidents/all/route.ts:9-17 | the record keeps every field except the category (the corrected title case, `DisplayType`), the severity and the camera status (lower case) |
| Api.TransformIncidentIdempotent | app/api/incidents/all/route.ts:9-17 | transforming a transformed record changes nothing |
| Api.TransformAll | app/api/incidents/all/route.ts:9 | one transformed record per row, in the database's order |
| Api.TransformAllIdempotent | app/api/incidents/all/route.ts:9-17 | transforming the route's output again changes nothing |
| Api.ParseResolvedParam | app/api/incidents/route.ts:7-9 | no parameter means no filter; `"true"` means resolved; any other value means unresolved |
| Api.AllRoute | app/api/incidents/all/route.ts:6-17 | `/api/incidents/all` returns every row transformed (with the corrected category), in order |
| Api.IncidentsRoute | app/api/incidents/route.ts:7-21 | `/api/incidents` without the parameter returns what `/api/incidents/all` returns |
| Api.RoutesAgree | app/api/incidents/route.ts:7-21 | with the parameter, `/api/incidents` equals `/api/incidents/all` filtered on the resolved flag |

## Left out

- Rendering is not modelled: JSX and SVG, icons, scrolling the selected card into view, the loading view and the player. Only the state these views read is modelled.
- Locale text is not modelled: `toLocaleTimeString`, `toLocaleDateString`, and the marker and block labels. Marker and block positions are modelled; their text is not.
- Timers and scheduling are modelled by explicit calls:
  - The one-second play interval is one `Tick` call per firing.
  - A `setTimeout(…, 0)`-deferred `onTimeChange` is recorded at once, in order.
  - The global mouse listeners are the `MouseMove` and `MouseUp` methods.
  - The list's refresh spinner, with its one-second timer, is left out.
- React effect scheduling is modelled by explicit effect methods. `SelectIncident` runs them in the order React does for a new external selection. `ZoomInThenFocus` shows the re-focus after a zoom change.
- The `mounted` flag is left out: the model is always mounted, so ticks run only while playing.
- The timeline and the page are not composed. The timeline's `onDateChange` goes to the page's `handleDateChange`, which clears the page's selection. So a selection on another day ends, at the host, with no selection and the cursor at noon. The timeline model takes the host's selection and date as method arguments.
- The timeline's `onIncidentSelect` passes the projected timeline record. `Page.Dashboard.HandleIncidentSelect` takes a full record.
- Time zones and daylight saving time are left out; the offset is fixed at zero. Turning `tsStart` into an ISO string in the page's fetch is the identity on integer milliseconds.
- The date engine's verdict on a `YYYY-MM-DD` string is the `engineAccepts` parameter (the `isNaN` checks). This covers dates the pattern admits but the engine rejects. The engine is not modelled.
- Floating-point arithmetic is modelled as exact reals. `new Date` truncating the fraction of a millisecond toward zero is modelled (`XToTime`). Rounding inside `timeToX` is not. NaN guards on invalid dates are left out.
- The network and the database are parameters:
  - `FetchResponse` is the response of the fetch.
  - `ResolveOutcome` is the response of the resolve request.
  - `QueryIncidents` takes the table as given, already in the query's `tsStart` descending order.
  - The routes' 500 responses and the console logging are left out.
- The other routes and the player component are outside this core.
- Case mapping is ASCII only. `\w` is the regular-expression class without the `u` flag.
- The speed selector is modelled as its four options (`Speed`). The source's `Number(value)` would accept any number the select element could send.
- The timeline's date picker value is an epoch day number, not a string.
- Api.DisplayTypeMatchesColourTables: is evaluated only for `GUN_THREAT`. The other enum names are all two upper-case words, so `Api.TwoWordsTitle` covers them.
- Timeline.TimelineView.FocusEffect: centres with the corrected `CentreOn`, not the source's hour-truncated `setHours` centring (`Recentre`). At the 1h and 30m levels the source's window can end before the incident (`RecentreMissesIncident`); the 12h level differs in the minutes too. Only the 24h level agrees.
- Timeline.TimelineView.SelectIncident: uses `CentreOn` like `FocusEffect`. Its promise that the incident lies inside the window holds for the corrected centring, not for the source's (`RecentreMissesIncident`).
- Timeline.TimelineView.ZoomInThenFocus: re-focuses with `CentreOn`, not `Recentre`.
- Api.TransformIncident: sets the category with the corrected `DisplayType`. The routes as written send `TypeAsWritten`, which keeps upper-case enum names upper-case ("GUN THREAT", `GunThreatAsWritten`).
- Api.TransformIncidentIdempotent: is proved for the corrected transform. The as-written category transform is idempotent too (`TypeAsWrittenIdempotent`).
- Api.TransformAll: maps the corrected transform, not the routes' as-written one.
- Api.TransformAllIdempotent: is about the corrected transform, as for `TransformIncidentIdempotent`.
- Api.AllRoute: returns the corrected categories. `IncidentsRoute` and `RoutesAgree` are stated over the same corrected transform.
- The pan buttons' `disabled` state (`components/incident-timeline.tsx:601-611`) is not modelled: `PanLeft` and `PanRight` can always be called. Their `disabled` tests differ from the handlers' own guards. So a pan the handler refuses can still be clicked, and it still stops playback, as the model does.
- Timeline.TimelineView.SyncSelectedDate and Timeline.TimelineView.ChangeDate: take no selection. In the source the focus effect also depends on the local date (`components/incident-timeline.tsx:163`), so a date change while the host still holds a selection re-runs the focus and switches back to the incident's day. The model assumes the host clears its selection on every date it accepts, as `handleDateChange` does (`app/page.tsx:117-147`).
- IncidentList.FormatDurationShape: is stated only for an end no earlier than the start. `FormatDuration` itself follows JavaScript for negative durations too.
- IncidentList.IncidentListView.HandleResolve: assumes no other update to the page between the optimistic update and the revert. Interleavings are covered only by `StartResolve` and `FinishResolve` as separate steps.

## Findings

| source | as written | input that shows it | evidently intended | confidence | as-written member | corrected member |
|---|---|---|---|---|---|---|
| components/incident-timeline.tsx:141-161 | the focus sets the start hour to `max(0, hour − hours/2)` via `setHours`, which truncates the half-hour and keeps the incident's minutes at zero; at the 1h and 30m levels the window then ends at or before the incident | an incident at 10:20, focused at the 1h level, gets the window 09:00–10:00 and is not drawn | a window that contains the incident, centred on it and clamped to its day | high, not executed | Timeline.RecentreMissesIncident | Timeline.CentreOn |
| app/api/incidents/all/route.ts:11 | the category transform only replaces underscores and upper-cases word starts, so the upper-case enum names stay upper-case | `GUN_THREAT` is sent as "GUN THREAT", which no colour table matches: the timeline draws it gray (unless the severity is known) and the list gives it a gray border | "Gun Threat", the key the timeline's and the list's colour and icon tables use | medium, not executed | Api.TypeAsWrittenMissesColourTables | Api.DisplayType |
