/** The timeline view-model: the selected day, the zoom level and viewport,
    the playback cursor and the play/drag flags, updated step by step by the
    widget's handlers and effects. Callbacks to the host are recorded, in
    order, as notifications. */
module Timeline {
  import opened Options
  import opened Calendar
  import opened Zoom
  import opened TimeAxis
  import opened Incidents
  import opened Layout

  // ---------------------------------------------------------------------
  // Re-centring on a selected incident

  /** The focus effect's viewport start, as the source computes it: the
      incident's hour minus half the window, floored at 0 and truncated to a
      whole hour by `setHours`, then pulled back so the window ends by
      23:59:59.999 of the incident's day. */
  function Recentre(t: int, level: ZoomIndex): int {
    var day := DayOf(t);
    var target := HourOf(t) as real - ZoomLevels[level].hours / 2.0;
    var startHour := Truncate(if target > 0.0 then target else 0.0);
    var start0 := DayStart(day) + startHour * MsPerHour;
    var start1 := if start0 < DayStart(day) then DayStart(day) else start0;
    if start1 + DurationMs(level) > DayEnd(day) then DayEnd(day) - DurationMs(level) else start1
  }

  /** As written: the window always ends by 23:59:59.999 of the incident's day
      and starts no later than the incident; it starts on that day except at
      the 24h level, where it starts one millisecond before midnight. */
  lemma RecentreBounds(t: int, level: ZoomIndex)
    ensures Recentre(t, level) + DurationMs(level) <= DayEnd(DayOf(t))
    ensures Recentre(t, level) <= t
    ensures level == 0 ==> Recentre(t, level) == DayStart(DayOf(t)) - 1
    ensures level != 0 ==> Recentre(t, level) >= DayStart(DayOf(t))
  {
    var day, h := DayOf(t), HourOf(t);
    var target := h as real - ZoomLevels[level].hours / 2.0;
    var startHour := Truncate(if target > 0.0 then target else 0.0);
    assert 0 <= startHour <= h;
    MulMonotone(startHour, h, MsPerHour);
    if level != 0 {
      assert DurationMs(level) <= 43_200_000 by { DurationStrictlyDecreasing(0, level); ZoomTop(); }
    } else {
      ZoomTop();
    }
  }

  lemma ZoomTop()
    ensures DurationMs(0) == MsPerDay && DurationMs(1) == 43_200_000
  {
    assert DurationMs(0) as real == 86_400_000.0;
    assert DurationMs(1) as real == 43_200_000.0;
  }

  /** Every level but the first spans at most half a day. */
  lemma ZoomBounds(level: ZoomIndex)
    ensures level == 0 ==> DurationMs(level) == MsPerDay
    ensures level != 0 ==> DurationMs(level) <= 43_200_000
    ensures DurationMs(level) >= 30 * MsPerMinute
  {
    ZoomTop();
    if level != 0 {
      DurationStrictlyDecreasing(0, level);
      if level < MaxZoom {
        DurationStrictlyDecreasing(level, MaxZoom);
      }
    }
    assert DurationMs(MaxZoom) as real == 1_800_000.0;
  }

  /** As written, at the 1h and 30m levels an incident that starts at 01:00 or
      later ends up at or after the end of the re-centred window: the window
      covers the hour before the incident's hour, so the incident itself is
      not drawn. */
  lemma RecentreMissesIncident(t: int, level: ZoomIndex)
    requires level >= 4 && HourOf(t) >= 1
    ensures Recentre(t, level) + DurationMs(level) <= t
  {
    var day, h := DayOf(t), HourOf(t);
    var target := h as real - ZoomLevels[level].hours / 2.0;
    assert target.Floor == h - 1;
    var start0 := DayStart(day) + (h - 1) * MsPerHour;
    assert DurationMs(level) <= MsPerHour by {
      assert DurationMs(level) as real <= 3_600_000.0;
    }
    assert start0 + DurationMs(level) <= DayStart(day) + h * MsPerHour;
    assert h <= 23;
    MulMonotone(h, 23, MsPerHour);
  }

  /** A concrete instance: an incident at 10:20 on 2024-01-21, focused at the
      1h level, gets the window 09:00-10:00 and is not visible in it. */
  lemma RecentreCounterexample(inc: TimelineIncident)
    requires inc.tsStart == DayStart(19743) + 10 * MsPerHour + 20 * MsPerMinute
    ensures Recentre(inc.tsStart, 4) == DayStart(19743) + 9 * MsPerHour
    ensures !IsVisible(inc, 19743, Recentre(inc.tsStart, 4), Recentre(inc.tsStart, 4) + DurationMs(4))
  {
    DayOfIsTheDay(inc.tsStart, 19743);
    assert HourOf(inc.tsStart) == 10;
    assert DurationMs(4) == MsPerHour by {
      assert DurationMs(4) as real == 3_600_000.0;
    }
  }

  /** The focus effect's viewport start as intended: centred on the incident
      instant itself, clamped to the incident's day the way the source clamps
      it. The incident always lies inside the resulting window. */
  function CentreOn(t: int, level: ZoomIndex): (start: int)
    ensures start <= t <= start + DurationMs(level)
    ensures start + DurationMs(level) <= DayEnd(DayOf(t))
    ensures level != 0 ==> DayStart(DayOf(t)) <= start
    ensures level == 0 ==> start == DayStart(DayOf(t)) - 1
    ensures DayStart(DayOf(t)) < start && start + DurationMs(level) < DayEnd(DayOf(t))
            ==> start + DurationMs(level) / 2 == t
  {
    var day, dur := DayOf(t), DurationMs(level);
    DayOfIsTheDay(t, day);
    ZoomBounds(level);
    var offset := t - DayStart(day);
    var start0 := DayStart(day) + (if offset - dur / 2 > 0 then offset - dur / 2 else 0);
    if start0 + dur > DayEnd(day) then DayEnd(day) - dur else start0
  }

  // ---------------------------------------------------------------------
  // Playback

  datatype Playback = Playback(cursor: int, playing: bool)

  /** One play tick: advance the cursor by `inc`, or, if that would pass the
      window's end, leave it and stop playing. A stopped player does not tick. */
  function TickStep(p: Playback, viewportEnd: int, inc: int): (q: Playback)
    requires inc > 0
    ensures !p.playing ==> q == p
    ensures q.cursor == p.cursor || q.cursor == p.cursor + inc
    ensures q.cursor != p.cursor ==> q.cursor <= viewportEnd && q.playing
    ensures p.playing && q.cursor == p.cursor ==> !q.playing
  {
    if !p.playing then p
    else if p.cursor + inc > viewportEnd then Playback(p.cursor, false)
    else Playback(p.cursor + inc, true)
  }

  function Ticks(p: Playback, viewportEnd: int, inc: int, n: nat): Playback
    requires inc > 0
    decreases n
  {
    if n == 0 then p else Ticks(TickStep(p, viewportEnd, inc), viewportEnd, inc, n - 1)
  }

  /** n uninterrupted ticks advance the cursor by n increments while that stays
      within the window; the cursor never passes the window's end (unless it
      started past it, in which case it does not move), and it always sits a
      whole number of increments from where it started. */
  lemma {:induction false} TicksAdvance(p: Playback, viewportEnd: int, inc: int, n: nat)
    requires inc > 0
    ensures p.playing && p.cursor + n * inc <= viewportEnd ==>
              Ticks(p, viewportEnd, inc, n) == Playback(p.cursor + n * inc, true)
    ensures Ticks(p, viewportEnd, inc, n).cursor <= (if p.cursor > viewportEnd then p.cursor else viewportEnd)
    ensures exists k :: 0 <= k <= n && Ticks(p, viewportEnd, inc, n).cursor == p.cursor + k * inc
    decreases n
  {
    if n == 0 {
      assert Ticks(p, viewportEnd, inc, n).cursor == p.cursor + 0 * inc;
    } else {
      var q := TickStep(p, viewportEnd, inc);
      TicksAdvance(q, viewportEnd, inc, n - 1);
      var k :| 0 <= k <= n - 1 && Ticks(q, viewportEnd, inc, n - 1).cursor == q.cursor + k * inc;
      if q.cursor == p.cursor {
        assert Ticks(p, viewportEnd, inc, n).cursor == p.cursor + k * inc;
      } else {
        assert Ticks(p, viewportEnd, inc, n).cursor == p.cursor + (k + 1) * inc;
      }
      if p.playing && p.cursor + n * inc <= viewportEnd {
        assert p.cursor + inc <= p.cursor + n * inc by { MulMonotone(1, n, inc); }
        assert q.cursor + (n - 1) * inc == p.cursor + n * inc;
      }
    }
  }

  /** At the 1h level and 1x speed, ten ticks that stay inside the window move
      the cursor by exactly ten minutes. */
  lemma TenTicksAtOneHour(cursor: int, viewportEnd: int)
    requires cursor + 10 * MsPerMinute <= viewportEnd
    ensures Ticks(Playback(cursor, true), viewportEnd, TickIncrementMs(4, Normal), 10)
            == Playback(cursor + 10 * MsPerMinute, true)
  {
    assert TickIncrementMs(4, Normal) == MsPerMinute by {
      assert TickIncrementMs(4, Normal) as real == 60_000.0;
    }
    TicksAdvance(Playback(cursor, true), viewportEnd, MsPerMinute, 10);
  }

  // ---------------------------------------------------------------------
  // Panning

  /** The window start after `panLeft`: a quarter window earlier, unless that
      would start before the day's midnight. */
  function PanLeftStart(start: int, level: ZoomIndex, day: int): (s: int)
    ensures s == start || s == start - DurationMs(level) / 4
    ensures s != start ==> s >= DayStart(day)
    ensures start - DurationMs(level) / 4 >= DayStart(day) ==> s != start
  {
    ZoomBounds(level);
    var newStart := start - DurationMs(level) / 4;
    if newStart >= DayStart(day) then newStart else start
  }

  /** The window start after `panRight`: a quarter window later, unless the
      window would then end after 23:59:59.999. */
  function PanRightStart(start: int, level: ZoomIndex, day: int): (s: int)
    ensures s == start || s == start + DurationMs(level) / 4
    ensures s != start ==> s + DurationMs(level) <= DayEnd(day)
    ensures start + DurationMs(level) / 4 + DurationMs(level) <= DayEnd(day) ==> s != start
  {
    ZoomBounds(level);
    var newStart := start + DurationMs(level) / 4;
    if newStart + DurationMs(level) <= DayEnd(day) then newStart else start
  }

  /** For a window inside the day, an accepted pan either way is undone by a
      pan the other way. */
  lemma PanRoundTrip(start: int, level: ZoomIndex, day: int)
    requires DayStart(day) <= start && start + DurationMs(level) <= DayEnd(day)
    ensures PanLeftStart(start, level, day) != start ==>
              PanRightStart(PanLeftStart(start, level, day), level, day) == start
    ensures PanRightStart(start, level, day) != start ==>
              PanLeftStart(PanRightStart(start, level, day), level, day) == start
  {
    ZoomBounds(level);
  }

  /** No pan ever leaves the day once the window lies inside it. */
  lemma PanStaysInDay(start: int, level: ZoomIndex, day: int)
    requires DayStart(day) <= start && start + DurationMs(level) <= DayEnd(day)
    ensures var l := PanLeftStart(start, level, day);
            DayStart(day) <= l && l + DurationMs(level) <= DayEnd(day)
    ensures var r := PanRightStart(start, level, day);
            DayStart(day) <= r && r + DurationMs(level) <= DayEnd(day)
  {
    ZoomBounds(level);
  }

  // ---------------------------------------------------------------------
  // The view-model

  /** The host callbacks: `onTimeChange`, `onIncidentSelect`, `onDateChange`. */
  datatype Notification =
    | TimeChanged(time: int)
    | IncidentSelected(incident: TimelineIncident)
    | DateChanged(day: int)

  datatype ViewState = ViewState(
    selectedDay: int,
    currentTime: int,
    isPlaying: bool,
    playbackSpeed: Speed,
    zoomLevel: ZoomIndex,
    viewportStart: int,
    isDragging: bool,
    notifications: seq<Notification>)

  class TimelineView {
    var selectedDay: int
    var currentTime: int
    var isPlaying: bool
    var playbackSpeed: Speed
    var zoomLevel: ZoomIndex
    var viewportStart: int
    var isDragging: bool
    var notifications: seq<Notification>

    function State(): ViewState
      reads this
    {
      ViewState(selectedDay, currentTime, isPlaying, playbackSpeed, zoomLevel,
                viewportStart, isDragging, notifications)
    }

    /** `viewportEnd`: always exactly the zoom level's hours after the start. */
    function ViewportEnd(): (e: int)
      reads this
      ensures (e - viewportStart) as real == ZoomLevels[zoomLevel].hours * 3_600_000.0
      ensures e > viewportStart
    {
      viewportStart + DurationMs(zoomLevel)
    }

    /** The initial state: the host's date (or today's), the cursor at today's
        noon and the window at today's midnight, 24h zoom, 1x, idle. */
    constructor (selectedDate: Option<int>, now: int)
      ensures State() == ViewState(
                if selectedDate.Some? then selectedDate.value else DayOf(now),
                Noon(DayOf(now)), false, Normal, 0, DayStart(DayOf(now)), false, [])
    {
      selectedDay := if selectedDate.Some? then selectedDate.value else DayOf(now);
      currentTime := Noon(DayOf(now));
      isPlaying := false;
      playbackSpeed := Normal;
      zoomLevel := 0;
      viewportStart := DayStart(DayOf(now));
      isDragging := false;
      notifications := [];
    }

    /** The date-reset effect: the window moves to the selected day's midnight
        and the cursor to its noon. */
    method DateResetEffect()
      modifies this
      ensures State() == old(State()).(viewportStart := DayStart(selectedDay), currentTime := Noon(selectedDay))
      ensures OnDay(viewportStart, selectedDay) && OnDay(currentTime, selectedDay)
    {
      viewportStart := DayStart(selectedDay);
      currentTime := Noon(selectedDay);
    }

    /** Adopting the host's date: a different date replaces the local one and
        triggers the date-reset effect. */
    method SyncSelectedDate(hostDate: Option<int>)
      modifies this
      ensures hostDate.Some? && hostDate.value != old(selectedDay) ==>
                State() == old(State()).(selectedDay := hostDate.value,
                                         viewportStart := DayStart(hostDate.value),
                                         currentTime := Noon(hostDate.value))
      ensures !(hostDate.Some? && hostDate.value != old(selectedDay)) ==> State() == old(State())
    {
      if hostDate.Some? && hostDate.value != selectedDay {
        selectedDay := hostDate.value;
        DateResetEffect();
      }
    }

    /** One run of the focus effect for the host's selected incident: switch to
        the incident's day (telling the host), centre the window on it and put
        the cursor at its start. */
    method FocusEffect(selected: Option<TimelineIncident>)
      modifies this
      ensures selected.None? ==> State() == old(State())
      ensures selected.Some? ==>
                var t := selected.value.tsStart;
                State() == old(State()).(
                  selectedDay := DayOf(t),
                  viewportStart := CentreOn(t, zoomLevel),
                  currentTime := t,
                  notifications := old(notifications) +
                    (if DayOf(t) != old(selectedDay) then [DateChanged(DayOf(t))] else []))
    {
      if selected.Some? {
        var t := selected.value.tsStart;
        var day := DayOf(t);
        if day != selectedDay {
          selectedDay := day;
          notifications := notifications + [DateChanged(day)];
        }
        viewportStart := CentreOn(t, zoomLevel);
        currentTime := t;
      }
    }

    /** The effects that follow a new external selection, in the order they
        run: the focus effect, the date-reset effect if the day changed, and
        the focus effect again. The day changes at most once, with one
        notification, and the incident ends up inside the window under the
        cursor; selecting the same incident again changes nothing. */
    method SelectIncident(selected: TimelineIncident)
      modifies this
      ensures var t := selected.tsStart;
              State() == old(State()).(
                selectedDay := DayOf(t),
                viewportStart := CentreOn(t, zoomLevel),
                currentTime := t,
                notifications := old(notifications) +
                  (if DayOf(t) != old(selectedDay) then [DateChanged(DayOf(t))] else []))
      ensures viewportStart <= currentTime <= ViewportEnd()
    {
      var before := selectedDay;
      FocusEffect(Some(selected));
      if selectedDay != before {
        DateResetEffect();
        FocusEffect(Some(selected));
      }
    }

    method ZoomIn()
      modifies this
      ensures old(zoomLevel) < MaxZoom ==>
                State() == old(State()).(zoomLevel := old(zoomLevel) + 1, isPlaying := false)
      ensures old(zoomLevel) < MaxZoom ==> ViewportEnd() - viewportStart < old(ViewportEnd() - viewportStart)
      ensures old(zoomLevel) == MaxZoom ==> State() == old(State())
    {
      if zoomLevel < MaxZoom {
        DurationStrictlyDecreasing(zoomLevel, zoomLevel + 1);
        zoomLevel := zoomLevel + 1;
        isPlaying := false;
      }
    }

    method ZoomOut()
      modifies this
      ensures old(zoomLevel) > 0 ==>
                State() == old(State()).(zoomLevel := old(zoomLevel) - 1, isPlaying := false)
      ensures old(zoomLevel) > 0 ==> ViewportEnd() - viewportStart > old(ViewportEnd() - viewportStart)
      ensures old(zoomLevel) == 0 ==> State() == old(State())
    {
      if zoomLevel > 0 {
        DurationStrictlyDecreasing(zoomLevel - 1, zoomLevel);
        zoomLevel := zoomLevel - 1;
        isPlaying := false;
      }
    }

    /** A zoom change re-runs the focus effect for the selected incident. */
    method ZoomInThenFocus(selected: Option<TimelineIncident>)
      modifies this
      ensures zoomLevel == (if old(zoomLevel) < MaxZoom then old(zoomLevel) + 1 else old(zoomLevel))
      ensures old(zoomLevel) < MaxZoom && selected.Some? ==>
                viewportStart == CentreOn(selected.value.tsStart, zoomLevel) &&
                currentTime == selected.value.tsStart && !isPlaying
      ensures old(zoomLevel) == MaxZoom || selected.None? ==> viewportStart == old(viewportStart)
    {
      var before := zoomLevel;
      ZoomIn();
      if zoomLevel != before {
        FocusEffect(selected);
      }
    }

    /** Pan a quarter window back, unless that starts before the day's
        midnight. Always stops playback. */
    method PanLeft()
      modifies this
      ensures State() == old(State()).(viewportStart := PanLeftStart(old(viewportStart), zoomLevel, selectedDay),
                                       isPlaying := false)
    {
      var step := DurationMs(zoomLevel) / 4;
      var newStart := viewportStart - step;
      if newStart >= DayStart(selectedDay) {
        viewportStart := newStart;
      }
      isPlaying := false;
    }

    /** Pan a quarter window forward, unless the window would then end after
        23:59:59.999. Always stops playback. */
    method PanRight()
      modifies this
      ensures State() == old(State()).(viewportStart := PanRightStart(old(viewportStart), zoomLevel, selectedDay),
                                       isPlaying := false)
    {
      var step := DurationMs(zoomLevel) / 4;
      var newStart := viewportStart + step;
      if newStart + DurationMs(zoomLevel) <= DayEnd(selectedDay) {
        viewportStart := newStart;
      }
      isPlaying := false;
    }

    /** The play/pause button. */
    method TogglePlay()
      modifies this
      ensures State() == old(State()).(isPlaying := !old(isPlaying))
    {
      isPlaying := !isPlaying;
    }

    /** The speed selector; a running player uses it from the next tick. */
    method SetSpeed(s: Speed)
      modifies this
      ensures State() == old(State()).(playbackSpeed := s)
    {
      playbackSpeed := s;
    }

    /** One firing of the one-second play interval. */
    method Tick()
      modifies this
      ensures var q := TickStep(Playback(old(currentTime), old(isPlaying)), old(ViewportEnd()),
                                TickIncrementMs(zoomLevel, playbackSpeed));
              State() == old(State()).(
                currentTime := q.cursor,
                isPlaying := q.playing,
                notifications := old(notifications) +
                  (if q.cursor != old(currentTime) then [TimeChanged(q.cursor)] else []))
      ensures currentTime != old(currentTime) ==> currentTime <= ViewportEnd()
    {
      var q := TickStep(Playback(currentTime, isPlaying), ViewportEnd(),
                        TickIncrementMs(zoomLevel, playbackSpeed));
      if q.cursor != currentTime {
        notifications := notifications + [TimeChanged(q.cursor)];
      }
      currentTime := q.cursor;
      isPlaying := q.playing;
    }

    /** A click on the axis seeks there, unless a drag is in progress. */
    method TimelineClick(x: real)
      modifies this
      ensures old(isDragging) ==> State() == old(State())
      ensures !old(isDragging) ==>
                var t := XToTime(viewportStart, DurationMs(zoomLevel), x);
                State() == old(State()).(currentTime := t, notifications := old(notifications) + [TimeChanged(t)])
      ensures !old(isDragging) ==> viewportStart <= currentTime <= ViewportEnd()
    {
      if !isDragging {
        var t := XToTime(viewportStart, DurationMs(zoomLevel), x);
        currentTime := t;
        notifications := notifications + [TimeChanged(t)];
      }
    }

    /** Pressing on the cursor handle starts a drag and stops playback. */
    method MouseDown()
      modifies this
      ensures State() == old(State()).(isDragging := true, isPlaying := false)
    {
      isDragging := true;
      isPlaying := false;
    }

    /** While dragging, the cursor follows the pointer, clamped to the axis. */
    method MouseMove(x: real)
      modifies this
      ensures !old(isDragging) ==> State() == old(State())
      ensures old(isDragging) ==>
                var t := XToTime(viewportStart, DurationMs(zoomLevel), Clamp(0.0, Width, x));
                State() == old(State()).(currentTime := t, notifications := old(notifications) + [TimeChanged(t)])
      ensures old(isDragging) ==> viewportStart <= currentTime <= ViewportEnd()
    {
      if isDragging {
        var t := XToTime(viewportStart, DurationMs(zoomLevel), Clamp(0.0, Width, x));
        currentTime := t;
        notifications := notifications + [TimeChanged(t)];
      }
    }

    method MouseUp()
      modifies this
      ensures State() == old(State()).(isDragging := false)
    {
      isDragging := false;
    }

    method JumpToStart()
      modifies this
      ensures State() == old(State()).(currentTime := viewportStart, isPlaying := false,
                                       notifications := old(notifications) + [TimeChanged(viewportStart)])
    {
      currentTime := viewportStart;
      notifications := notifications + [TimeChanged(viewportStart)];
      isPlaying := false;
    }

    method JumpToEnd()
      modifies this
      ensures State() == old(State()).(currentTime := ViewportEnd(), isPlaying := false,
                                       notifications := old(notifications) + [TimeChanged(ViewportEnd())])
    {
      currentTime := ViewportEnd();
      notifications := notifications + [TimeChanged(ViewportEnd())];
      isPlaying := false;
    }

    /** Seek to an incident and report it as selected (block clicks and the
        quick-jump buttons). */
    method JumpToIncident(inc: TimelineIncident)
      modifies this
      ensures State() == old(State()).(currentTime := inc.tsStart, isPlaying := false,
                                       notifications := old(notifications) + [TimeChanged(inc.tsStart), IncidentSelected(inc)])
    {
      currentTime := inc.tsStart;
      notifications := notifications + [TimeChanged(inc.tsStart)];
      notifications := notifications + [IncidentSelected(inc)];
      isPlaying := false;
    }

    /** The "Focus Selected" button. */
    method FocusOnSelectedIncident(selected: Option<TimelineIncident>)
      modifies this
      ensures selected.None? ==> State() == old(State())
      ensures selected.Some? ==>
                State() == old(State()).(currentTime := selected.value.tsStart, isPlaying := false,
                  notifications := old(notifications) + [TimeChanged(selected.value.tsStart), IncidentSelected(selected.value)])
    {
      if selected.Some? {
        JumpToIncident(selected.value);
      }
    }

    /** The date picker: adopt the day, tell the host, stop playback, and if
        the day changed run the date-reset effect. */
    method ChangeDate(day: int)
      modifies this
      ensures day != old(selectedDay) ==>
                State() == old(State()).(selectedDay := day, isPlaying := false,
                  viewportStart := DayStart(day), currentTime := Noon(day),
                  notifications := old(notifications) + [DateChanged(day)])
      ensures day == old(selectedDay) ==>
                State() == old(State()).(isPlaying := false, notifications := old(notifications) + [DateChanged(day)])
    {
      var before := selectedDay;
      selectedDay := day;
      notifications := notifications + [DateChanged(day)];
      isPlaying := false;
      if day != before {
        DateResetEffect();
      }
    }

    /** `currentX`: the cursor's position on the axis. */
    function CurrentX(): (x: real)
      reads this
      ensures 0.0 <= x <= Width
      ensures viewportStart <= currentTime <= ViewportEnd() ==>
                x == Offset(viewportStart, DurationMs(zoomLevel), currentTime as real)
    {
      TimeToX(viewportStart, DurationMs(zoomLevel), currentTime)
    }

    /** The incidents drawn for the current day and window. */
    function Visible(incs: seq<TimelineIncident>): (r: seq<TimelineIncident>)
      reads this
      ensures forall x :: x in r <==> x in incs && IsVisible(x, selectedDay, viewportStart, ViewportEnd())
    {
      VisibleIncidents(incs, selectedDay, viewportStart, ViewportEnd())
    }

    /** The blocks drawn for the current state: one per drawn incident, in
        order, starting at the incident's offset in the current window and
        inside the band of the row that carries its camera. */
    function Blocks(incs: seq<TimelineIncident>, selected: Option<TimelineIncident>): (r: seq<Block>)
      reads this
      ensures |r| == |Visible(incs)|
      ensures forall i :: 0 <= i < |r| ==>
                r[i].incident == Visible(incs)[i] && r[i].width >= MinBlockWidth &&
                (r[i].isSelected <==> selected.Some? && selected.value.id == r[i].incident.id)
      ensures forall i :: 0 <= i < |r| ==>
                && r[i].startX == TimeToX(viewportStart, DurationMs(zoomLevel), r[i].incident.tsStart)
                && var row := RowOf(Cameras(incs), r[i].incident.camera.id);
                   && row < |Cameras(incs)| && Cameras(incs)[row].id == r[i].incident.camera.id
                   && HeaderHeight + row * CameraRowHeight < r[i].y
                   && r[i].y + r[i].height < HeaderHeight + row * CameraRowHeight + CameraRowHeight
    {
      var selectedId := if selected.Some? then Some(selected.value.id) else None;
      var vis, cams := Visible(incs), Cameras(incs);
      assert forall k :: 0 <= k < |vis| ==> IndexOfCamera(cams, vis[k].camera.id) != -1 by {
        forall k | 0 <= k < |vis| ensures IndexOfCamera(cams, vis[k].camera.id) != -1 {
          assert vis[k] in vis;
          EveryIncidentHasARow(incs, vis[k]);
        }
      }
      ProcessIncidents(vis, cams, viewportStart, DurationMs(zoomLevel), selectedId)
    }

    /** The time markers for the current window: one per interval from the
        rounded-down window start up to the window end, each at its offset on
        the axis and flagged on whole hours. */
    method Markers() returns (markers: seq<Marker>)
      ensures var step := MarkerIntervalMinutes(zoomLevel) * MsPerMinute;
              var t0 := FirstMarkerTime(viewportStart, MarkerIntervalMinutes(zoomLevel));
              && |markers| == (ViewportEnd() - t0) / step + 1
              && forall i :: 0 <= i < |markers| ==>
                   && markers[i].time == t0 + i * step
                   && markers[i].x == TimeToX(viewportStart, DurationMs(zoomLevel), markers[i].time)
                   && markers[i].isHour == (MinuteOf(markers[i].time) == 0)
      ensures forall i :: 0 <= i < |markers| ==> markers[i].time <= ViewportEnd() && 0.0 <= markers[i].x <= Width
      ensures |markers| >= 1 && markers[0].time <= viewportStart
    {
      markers := TimeMarkers(viewportStart, zoomLevel);
      MarkersCoverWindow(viewportStart, zoomLevel);
    }
  }
}
