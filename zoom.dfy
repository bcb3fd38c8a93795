/** The timeline's fixed zoom ladder and playback speeds. */
module Zoom {
  import opened Calendar

  datatype ZoomLevel = ZoomLevel(caption: string, hours: real)

  /** `ZOOM_LEVELS`, widest first. */
  const ZoomLevels: seq<ZoomLevel> := [
    ZoomLevel("24h", 24.0),
    ZoomLevel("12h", 12.0),
    ZoomLevel("6h", 6.0),
    ZoomLevel("3h", 3.0),
    ZoomLevel("1h", 1.0),
    ZoomLevel("30m", 0.5)
  ]

  /** An index into `ZoomLevels`. */
  type ZoomIndex = i: int | 0 <= i < 6

  const MaxZoom: ZoomIndex := 5

  /** `viewportHours * 60 * 60 * 1000`: the viewport width in milliseconds.
      Every level is a whole number of milliseconds, and divisible by four, so
      the quarter-width pan step is exact too. */
  function DurationMs(level: ZoomIndex): (ms: int)
    ensures ms as real == ZoomLevels[level].hours * 3_600_000.0
    ensures ms > 0 && ms % 4 == 0
  {
    (ZoomLevels[level].hours * 3_600_000.0).Floor
  }

  /** A deeper zoom level always shows a strictly shorter window. */
  lemma {:induction false} DurationStrictlyDecreasing(i: ZoomIndex, j: ZoomIndex)
    requires i < j
    ensures DurationMs(i) > DurationMs(j)
  {
    var d := [86_400_000, 43_200_000, 21_600_000, 10_800_000, 3_600_000, 1_800_000];
    forall k: ZoomIndex ensures DurationMs(k) == d[k] {
      assert DurationMs(k) as real == d[k] as real;
    }
  }

  /** The playback-speed selector: 0.5x, 1x, 2x, 4x. */
  datatype Speed = Half | Normal | Double | Quadruple

  function Multiplier(s: Speed): real {
    match s
    case Half => 0.5
    case Normal => 1.0
    case Double => 2.0
    case Quadruple => 4.0
  }

  /** The cursor advance per one-second play tick: one minute of timeline per
      unit of speed at the 1h and 30m levels, five minutes otherwise. */
  function TickIncrementMs(level: ZoomIndex, s: Speed): (ms: int)
    ensures ZoomLevels[level].hours <= 1.0 ==> ms as real == 60_000.0 * Multiplier(s)
    ensures ZoomLevels[level].hours > 1.0 ==> ms as real == 300_000.0 * Multiplier(s)
    ensures ms >= 30_000
  {
    if ZoomLevels[level].hours <= 1.0 then (60_000.0 * Multiplier(s)).Floor
    else (300_000.0 * Multiplier(s)).Floor
  }

  /** The time-marker spacing in minutes for a zoom level. */
  function MarkerIntervalMinutes(level: ZoomIndex): (m: int)
    ensures m in {5, 30, 60, 120}
    ensures ZoomLevels[level].hours <= 1.0 <==> m == 5
  {
    var h := ZoomLevels[level].hours;
    if h <= 1.0 then 5
    else if h <= 6.0 then 30
    else if h <= 12.0 then 60
    else 120
  }
}
