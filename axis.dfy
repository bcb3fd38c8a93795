/** The mapping between instants and horizontal pixel offsets on the
    timeline's 1200-pixel axis, and the time-marker ticks drawn along it.
    Pixel offsets are exact reals; instants are integer milliseconds. */
module TimeAxis {
  import opened Calendar
  import opened Zoom

  /** `timelineWidth`. */
  const Width: real := 1200.0

  function Clamp(lo: real, hi: real, v: real): real
    requires lo <= hi
  {
    if v < lo then lo else if v > hi then hi else v
  }

  /** `timeToX` before the clamp: where an (exact) instant lies on the axis
      of the window [vs, vs + dur]. */
  function Offset(vs: int, dur: int, t: real): real
    requires dur > 0
  {
    (t - vs as real) / dur as real * Width
  }

  lemma OffsetRange(vs: int, dur: int, t: real)
    requires dur > 0
    ensures t <= vs as real ==> Offset(vs, dur, t) <= 0.0
    ensures t >= (vs + dur) as real ==> Offset(vs, dur, t) >= Width
    ensures vs as real <= t <= (vs + dur) as real ==> 0.0 <= Offset(vs, dur, t) <= Width
  {
    var a, d := t - vs as real, dur as real;
    if a <= 0.0 {
      QuotientNonPositive(a, d);
    }
    if a >= d {
      QuotientAtLeastOne(a, d);
    }
    if 0.0 <= a <= d {
      QuotientUnit(a, d);
    }
  }

  lemma QuotientNonPositive(a: real, d: real)
    requires d > 0.0 && a <= 0.0
    ensures a / d <= 0.0
  {
    assert (a / d) * d == a;
  }

  lemma QuotientAtLeastOne(a: real, d: real)
    requires d > 0.0 && a >= d
    ensures a / d >= 1.0
  {
    assert (a / d) * d == a;
  }

  lemma QuotientUnit(a: real, d: real)
    requires d > 0.0 && 0.0 <= a <= d
    ensures 0.0 <= a / d <= 1.0
  {
    assert (a / d) * d == a;
  }

  /** `timeToX`: the clamped pixel offset of an instant. Instants outside the
      window stick to the nearest edge; inside it the map is exact. */
  function TimeToX(vs: int, dur: int, t: int): (x: real)
    requires dur > 0
    ensures 0.0 <= x <= Width
    ensures t <= vs ==> x == 0.0
    ensures t >= vs + dur ==> x == Width
    ensures vs <= t <= vs + dur ==> x == Offset(vs, dur, t as real)
  {
    OffsetRange(vs, dur, t as real);
    Clamp(0.0, Width, Offset(vs, dur, t as real))
  }

  /** The fraction of the window a pixel offset selects, clamped to [0, 1]. */
  function Ratio(x: real): (q: real)
    ensures 0.0 <= q <= 1.0
  {
    Clamp(0.0, 1.0, x / Width)
  }

  /** JavaScript's ToIntegerOrInfinity on a finite number: truncation toward
      zero, as `new Date(number)` and `setHours` apply it. */
  function Truncate(r: real): (n: int)
    ensures r >= 0.0 ==> n == r.Floor
    ensures r >= 0.0 ==> n as real <= r < n as real + 1.0
    ensures r < 0.0 ==> n as real - 1.0 < r <= n as real && n <= 0
  {
    if r >= 0.0 then r.Floor else -((-r).Floor)
  }

  /** `xToTime` in exact arithmetic, before `new Date` drops the fraction of a
      millisecond. */
  function XToInstant(vs: int, dur: int, x: real): (t: real)
    requires dur > 0
    ensures vs as real <= t <= (vs + dur) as real
  {
    vs as real + Ratio(x) * dur as real
  }

  /** `xToTime`: the instant under a pixel offset. The offset is clamped to
      the axis first, so the instant always lies inside the window; `new Date`
      then truncates toward zero, down after 1970 and up before it. */
  function XToTime(vs: int, dur: int, x: real): (t: int)
    requires dur > 0
    ensures vs <= t <= vs + dur
    ensures var e := XToInstant(vs, dur, x);
            && (e >= 0.0 ==> t as real <= e < t as real + 1.0)
            && (e < 0.0 ==> t as real - 1.0 < e <= t as real)
  {
    var e := XToInstant(vs, dur, x);
    var t := Truncate(e);
    assert vs as real <= e <= (vs + dur) as real;
    t
  }

  /** In exact arithmetic the two maps are inverse on the axis:
      timeToX(xToTime(x)) == x for every x in [0, 1200]. */
  lemma ExactRoundTrip(vs: int, dur: int, x: real)
    requires dur > 0 && 0.0 <= x <= Width
    ensures Offset(vs, dur, XToInstant(vs, dur, x)) == x
  {
    var d := dur as real;
    assert Ratio(x) == x / Width;
    calc {
      Offset(vs, dur, XToInstant(vs, dur, x));
      ((x / Width) * d) / d * Width;
      { assert ((x / Width) * d) / d == x / Width; }
      x / Width * Width;
    }
  }

  /** With whole-millisecond instants the round trip is off by less than one
      millisecond's worth of pixels, which is at most 1/1500 of a pixel at the
      30-minute zoom level: to the left after 1970, to the right before it. */
  lemma RoundTripWithinAMillisecond(vs: int, dur: int, x: real)
    requires dur > 0 && 0.0 <= x <= Width
    ensures var p, e := TimeToX(vs, dur, XToTime(vs, dur, x)), XToInstant(vs, dur, x);
            && (e >= 0.0 ==> p <= x && x - p < Width / dur as real)
            && (e < 0.0 ==> x <= p && p - x < Width / dur as real)
  {
    var t := XToTime(vs, dur, x);
    var e := XToInstant(vs, dur, x);
    var d := dur as real;
    ExactRoundTrip(vs, dur, x);
    assert TimeToX(vs, dur, t) == Offset(vs, dur, t as real);
    assert Offset(vs, dur, e) - Offset(vs, dur, t as real) == (e - t as real) / d * Width;
    if e >= 0.0 {
      PixelsOfUnderAMillisecond(e - t as real, d);
    } else {
      assert Offset(vs, dur, t as real) - Offset(vs, dur, e) == (t as real - e) / d * Width;
      PixelsOfUnderAMillisecond(t as real - e, d);
    }
  }

  lemma PixelsOfUnderAMillisecond(delta: real, d: real)
    requires d > 0.0 && 0.0 <= delta < 1.0
    ensures 0.0 <= delta / d * Width < Width / d
  {
    var q := delta / d;
    assert q * d == delta;
    assert q < 1.0 / d by {
      assert (1.0 / d) * d == 1.0;
    }
    assert q * Width < (1.0 / d) * Width;
    assert (1.0 / d) * Width == Width / d;
  }

  /** Pixel offsets off either end of the axis select the window's ends. */
  lemma XToTimeClamps(vs: int, dur: int, x: real)
    requires dur > 0
    ensures x <= 0.0 ==> XToTime(vs, dur, x) == vs
    ensures x >= Width ==> XToTime(vs, dur, x) == vs + dur
  {
  }

  /** Later instants are never drawn further left. */
  lemma TimeToXMonotone(vs: int, dur: int, t: int, u: int)
    requires dur > 0 && t <= u
    ensures TimeToX(vs, dur, t) <= TimeToX(vs, dur, u)
  {
    QuotientMonotone((t - vs) as real, (u - vs) as real, dur as real);
  }

  lemma QuotientMonotone(a: real, b: real, d: real)
    requires d > 0.0 && a <= b
    ensures a / d <= b / d
  {
    assert (b / d - a / d) * d == b - a;
  }

  // ---------------------------------------------------------------------
  // Time markers

  datatype Marker = Marker(time: int, x: real, isHour: bool)

  /** `getMinutes()` of an instant. */
  function MinuteOf(t: int): (m: int)
    ensures 0 <= m < 60
  {
    (t % MsPerHour) / MsPerMinute
  }

  /** The first marker: the window start with its minutes rounded down to a
      multiple of the marker interval and its seconds cleared
      (`setMinutes(startMinutes, 0, 0)`). */
  function FirstMarkerTime(vs: int, intervalMinutes: int): (t0: int)
    requires intervalMinutes in {5, 30, 60, 120}
    ensures t0 <= vs && vs - t0 < MsPerHour
    ensures t0 % MsPerMinute == 0 && t0 / MsPerHour == vs / MsPerHour
    ensures MinuteOf(t0) % intervalMinutes == 0
    ensures MinuteOf(t0) <= MinuteOf(vs) < MinuteOf(t0) + intervalMinutes
    ensures intervalMinutes <= 60 ==> vs - t0 < intervalMinutes * MsPerMinute
  {
    var hourStart := vs - vs % MsPerHour;
    var m := MinuteOf(vs);
    var k := (m / intervalMinutes) * intervalMinutes;
    HourParts(vs);
    RoundDown(m, intervalMinutes);
    MinuteInHour(hourStart, k);
    hourStart + k * MsPerMinute
  }

  /** Rounding a minute down to a multiple of the interval. */
  lemma RoundDown(m: int, i: int)
    requires 0 <= m < 60 && i in {5, 30, 60, 120}
    ensures var k := (m / i) * i;
            && 0 <= k <= m < k + i && k % i == 0
  {
  }

  /** An instant splits into its hour's start, whole minutes and the rest. */
  lemma HourParts(vs: int)
    ensures var h := vs - vs % MsPerHour;
            && h % MsPerHour == 0 && h / MsPerHour == vs / MsPerHour
            && h + MinuteOf(vs) * MsPerMinute <= vs < h + MinuteOf(vs) * MsPerMinute + MsPerMinute
  {
    var r := vs % MsPerHour;
    var q := vs / MsPerHour;
    assert vs == q * MsPerHour + r;
    assert vs - r == q * MsPerHour;
    assert r == (r / MsPerMinute) * MsPerMinute + r % MsPerMinute;
  }

  /** `k` whole minutes past the start of an hour fall in that hour, at
      minute `k`. */
  lemma MinuteInHour(h: int, k: int)
    requires h % MsPerHour == 0 && 0 <= k < 60
    ensures var t := h + k * MsPerMinute;
            && MinuteOf(t) == k && t / MsPerHour == h / MsPerHour && t % MsPerMinute == 0
  {
    var q := h / MsPerHour;
    var t := h + k * MsPerMinute;
    assert h == q * MsPerHour;
    assert (q + 1) * MsPerHour == q * MsPerHour + MsPerHour;
    DivUnique(t, MsPerHour, q);
    assert t % MsPerHour == k * MsPerMinute;
    DivUnique(k * MsPerMinute, MsPerMinute, k);
    var n := q * 60 + k;
    assert t == n * MsPerMinute;
    assert (n + 1) * MsPerMinute == n * MsPerMinute + MsPerMinute;
    DivUnique(t, MsPerMinute, n);
  }

  lemma MulMonotone(x: int, y: int, b: int)
    requires x <= y && b >= 0
    ensures x * b <= y * b
  {
    assert y * b - x * b == (y - x) * b;
  }

  /** The quotient is the unique k with k*b <= a < (k+1)*b. */
  lemma DivUnique(a: int, b: int, k: int)
    requires b > 0 && k * b <= a < (k + 1) * b
    ensures a / b == k
  {
    var q, r := a / b, a % b;
    assert a == q * b + r && 0 <= r < b;
    if q < k {
      MulMonotone(q + 1, k, b);
    } else if q > k {
      MulMonotone(k + 1, q, b);
    }
  }

  /** Marker `i` sits at `t0 + i * step`, inside the window [vs, vs + dur],
      at its pixel offset, flagged when it falls on the hour. */
  predicate MarkersFrom(markers: seq<Marker>, vs: int, dur: int, t0: int, step: int)
    requires dur > 0
  {
    forall i :: 0 <= i < |markers| ==>
      && markers[i].time == t0 + i * step
      && markers[i].time <= vs + dur
      && markers[i].x == TimeToX(vs, dur, markers[i].time)
      && markers[i].isHour == (MinuteOf(markers[i].time) == 0)
  }

  /** The marker at the next step extends the run. */
  lemma AppendMarker(markers: seq<Marker>, vs: int, dur: int, t0: int, step: int)
    requires dur > 0 && MarkersFrom(markers, vs, dur, t0, step)
    requires t0 + |markers| * step <= vs + dur
    ensures var t := t0 + |markers| * step;
            && MarkersFrom(markers + [Marker(t, TimeToX(vs, dur, t), MinuteOf(t) == 0)], vs, dur, t0, step)
            && (|markers| + 1) * step == t - t0 + step
  {
    assert (|markers| + 1) * step == |markers| * step + step;
  }

  /** The `timeMarkers` loop: one marker per interval, from the rounded-down
      window start up to and including the window end. */
  method TimeMarkers(vs: int, level: ZoomIndex) returns (markers: seq<Marker>)
    ensures var step := MarkerIntervalMinutes(level) * MsPerMinute;
            var t0 := FirstMarkerTime(vs, MarkerIntervalMinutes(level));
            && |markers| == (vs + DurationMs(level) - t0) / step + 1
            && forall i :: 0 <= i < |markers| ==>
                 && markers[i].time == t0 + i * step
                 && markers[i].time <= vs + DurationMs(level)
                 && markers[i].x == TimeToX(vs, DurationMs(level), markers[i].time)
                 && markers[i].isHour == (MinuteOf(markers[i].time) == 0)
  {
    var dur := DurationMs(level);
    var interval := MarkerIntervalMinutes(level);
    var step := interval * MsPerMinute;
    var endTime := vs + dur;
    var t0 := FirstMarkerTime(vs, interval);
    var current := t0;
    markers := [];
    while current <= endTime
      invariant current == t0 + |markers| * step
      invariant current - step <= endTime
      invariant MarkersFrom(markers, vs, dur, t0, step)
      decreases endTime - current
    {
      var x := TimeToX(vs, dur, current);
      if 0.0 <= x <= Width {
        AppendMarker(markers, vs, dur, t0, step);
        markers := markers + [Marker(current, x, MinuteOf(current) == 0)];
      }
      current := current + step;
    }
    LoopCount(t0, endTime, step, |markers|);
  }

  /** A loop that advanced from `t0` by `step` `n` times and stopped just
      past `endTime` ran `(endTime - t0) / step + 1` times. */
  lemma LoopCount(t0: int, endTime: int, step: int, n: int)
    requires step > 0
    requires t0 + n * step - step <= endTime < t0 + n * step
    ensures n == (endTime - t0) / step + 1
  {
    assert (n - 1) * step == n * step - step;
    DivUnique(endTime - t0, step, n - 1);
  }

  /** The markers cover the window: the first is at or before its start, and
      the step after the last one lies beyond its end. */
  lemma MarkersCoverWindow(vs: int, level: ZoomIndex)
    ensures var step := MarkerIntervalMinutes(level) * MsPerMinute;
            var t0 := FirstMarkerTime(vs, MarkerIntervalMinutes(level));
            var n := (vs + DurationMs(level) - t0) / step + 1;
            t0 <= vs && t0 + (n - 1) * step <= vs + DurationMs(level) < t0 + n * step
  {
    var step := MarkerIntervalMinutes(level) * MsPerMinute;
    var t0 := FirstMarkerTime(vs, MarkerIntervalMinutes(level));
    var a := vs + DurationMs(level) - t0;
    var q, r := a / step, a % step;
    assert a == q * step + r && 0 <= r < step;
    assert (q + 1 - 1) * step == q * step;
    assert (q + 1) * step == q * step + step;
  }
}
