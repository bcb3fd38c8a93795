/** Instants are integer milliseconds since the epoch at a fixed UTC offset of
    zero; a calendar day is identified by its epoch day number. */
module Calendar {
  import opened Options

  const MsPerSecond: int := 1000
  const MsPerMinute: int := 60_000
  const MsPerHour: int := 3_600_000
  const MsPerDay: int := 86_400_000

  /** Midnight (`setHours(0, 0, 0, 0)`) of a day. */
  function DayStart(day: int): int { day * MsPerDay }

  /** 23:59:59.999 of a day (`setHours(23, 59, 59, 999)`): the last
      millisecond before the next day's midnight. */
  function DayEnd(day: int): (e: int)
    ensures e == DayStart(day + 1) - 1
  {
    DayStart(day) + 86_399_999
  }

  /** Local noon of a day (`setHours(12, 0, 0, 0)`). */
  function Noon(day: int): int { DayStart(day) + 12 * MsPerHour }

  /** The day an instant falls on (`toISOString().split("T")[0]`). */
  function DayOf(t: int): int { t / MsPerDay }

  /** The day test used by both the dashboard and the timeline:
      the instant lies in [00:00:00.000, 23:59:59.999] of that day. */
  predicate OnDay(t: int, day: int) { DayStart(day) <= t <= DayEnd(day) }

  /** `getHours()`: the hour of the day an instant falls in. */
  function HourOf(t: int): (h: int)
    ensures 0 <= h < 24
    ensures DayStart(DayOf(t)) + h * MsPerHour <= t < DayStart(DayOf(t)) + (h + 1) * MsPerHour
  {
    DayOfIsTheDay(t, DayOf(t));
    (t - DayStart(DayOf(t))) / MsPerHour
  }

  /** An instant is on exactly one day, the one `DayOf` names. */
  lemma DayOfIsTheDay(t: int, day: int)
    ensures OnDay(t, day) <==> DayOf(t) == day
  {
    var q, r := t / MsPerDay, t % MsPerDay;
    assert t == q * MsPerDay + r && 0 <= r < MsPerDay;
  }

  // ---------------------------------------------------------------------
  // `YYYY-MM-DD` date strings

  predicate IsDigit(c: char) { '0' <= c <= '9' }

  /** The regular expression `^\d{4}-\d{2}-\d{2}$`. */
  predicate IsDateFormat(s: string) {
    |s| == 10 &&
    IsDigit(s[0]) && IsDigit(s[1]) && IsDigit(s[2]) && IsDigit(s[3]) && s[4] == '-' &&
    IsDigit(s[5]) && IsDigit(s[6]) && s[7] == '-' &&
    IsDigit(s[8]) && IsDigit(s[9])
  }

  function DigitValue(c: char): (v: int)
    requires IsDigit(c)
    ensures 0 <= v <= 9
  {
    c as int - '0' as int
  }

  /** Days from 1970-01-01 to the proleptic Gregorian date y-m-d, with days past
      the end of a month rolling over into the next month. */
  function DaysFromCivil(y: int, m: int, d: int): int {
    var y' := if m <= 2 then y - 1 else y;
    var era := y' / 400;
    var yoe := y' - era * 400;
    var mp := if m > 2 then m - 3 else m + 9;
    var doy := (153 * mp + 2) / 5 + d - 1;
    var doe := yoe * 365 + yoe / 4 - yoe / 100 + doy;
    era * 146097 + doe - 719468
  }

  /** The epoch day named by a well-formed date string. */
  function DayOfDate(s: string): int
    requires IsDateFormat(s)
  {
    var y := DigitValue(s[0]) * 1000 + DigitValue(s[1]) * 100 + DigitValue(s[2]) * 10 + DigitValue(s[3]);
    var m := DigitValue(s[5]) * 10 + DigitValue(s[6]);
    var d := DigitValue(s[8]) * 10 + DigitValue(s[9]);
    DaysFromCivil(y, m, d)
  }

  lemma EpochDigits()
    ensures DayOfDate("1970-01-01") == DaysFromCivil(1970, 1, 1)
  {
    var e := "1970-01-01";
    assert DigitValue(e[0]) == 1 && DigitValue(e[1]) == 9 && DigitValue(e[2]) == 7;
    assert DigitValue(e[3]) == 0 && DigitValue(e[5]) == 0 && DigitValue(e[6]) == 1;
    assert DigitValue(e[8]) == 0 && DigitValue(e[9]) == 1;
  }

  lemma SampleDigits()
    ensures DayOfDate("2024-01-21") == DaysFromCivil(2024, 1, 21)
  {
    var e := "2024-01-21";
    assert DigitValue(e[0]) == 2 && DigitValue(e[1]) == 0 && DigitValue(e[2]) == 2;
    assert DigitValue(e[3]) == 4 && DigitValue(e[5]) == 0 && DigitValue(e[6]) == 1;
    assert DigitValue(e[8]) == 2 && DigitValue(e[9]) == 1;
  }

  lemma CivilDays()
    ensures DaysFromCivil(1970, 1, 1) == 0
    ensures DaysFromCivil(2024, 1, 21) == 19743
  {
  }

  /** The Gregorian leap-year rule. */
  predicate IsLeap(y: int) {
    y % 4 == 0 && (y % 100 != 0 || y % 400 == 0)
  }

  function DaysInMonth(y: int, m: int): int
    requires 1 <= m <= 12
  {
    if m == 2 then (if IsLeap(y) then 29 else 28)
    else if m == 4 || m == 6 || m == 9 || m == 11 then 30
    else 31
  }

  /** Consecutive days of a month are consecutive day numbers. */
  lemma NextDay(y: int, m: int, d: int)
    ensures DaysFromCivil(y, m, d + 1) == DaysFromCivil(y, m, d) + 1
  {
  }

  /** The first of the next month is as many days after the first of this
      month as this month has: December rolls over into January of the next
      year, and February has 29 days exactly in leap years. */
  lemma MonthRollsOver(y: int, m: int)
    requires 1 <= m <= 12
    ensures var y2, m2 := if m == 12 then y + 1 else y, if m == 12 then 1 else m + 1;
            DaysFromCivil(y2, m2, 1) == DaysFromCivil(y, m, 1) + DaysInMonth(y, m)
  {
    if m == 2 {
      FebruaryRollsOver(y);
    } else if m == 12 {
      DecemberRollsOver(y);
    } else {
      MonthWithinYear(y, m);
    }
  }

  lemma FebruaryRollsOver(y: int)
    ensures DaysFromCivil(y, 3, 1) == DaysFromCivil(y, 2, 1) + DaysInMonth(y, 2)
  {
    CivilByYearStart(y, 2, 1);
    CivilByYearStart(y, 3, 1);
    MarchYearLength(y - 1);
  }

  lemma DecemberRollsOver(y: int)
    ensures DaysFromCivil(y + 1, 1, 1) == DaysFromCivil(y, 12, 1) + 31
  {
    CivilByYearStart(y, 12, 1);
    CivilByYearStart(y + 1, 1, 1);
  }

  lemma MonthWithinYear(y: int, m: int)
    requires 1 <= m <= 11 && m != 2
    ensures DaysFromCivil(y, m + 1, 1) == DaysFromCivil(y, m, 1) + DaysInMonth(y, m)
  {
    CivilByYearStart(y, m, 1);
    CivilByYearStart(y, m + 1, 1);
  }

  /** The days before March 1 of year y + 1, counted from the start of the
      400-year era: `DaysFromCivil`'s year term for a March-based year. */
  function YearStart(y: int): int {
    var era := y / 400;
    var yoe := y - era * 400;
    era * 146097 + yoe * 365 + yoe / 4 - yoe / 100
  }

  /** The March-based year that begins in year y (and holds February of
      y + 1) has 366 days exactly when y + 1 is a leap year. */
  lemma MarchYearLength(y: int)
    ensures YearStart(y + 1) - YearStart(y) == if IsLeap(y + 1) then 366 else 365
  {
    var era := y / 400;
    var yoe := y - era * 400;
    if yoe == 399 {
      EraEndLength(era, y);
    } else {
      InEraLength(era, yoe + 1, y);
    }
  }

  /** `DaysFromCivil` as the start of the March-based year plus the day's
      offset within it. */
  lemma CivilByYearStart(y: int, m: int, d: int)
    ensures var mp := if m > 2 then m - 3 else m + 9;
            DaysFromCivil(y, m, d) == YearStart(if m <= 2 then y - 1 else y) + (153 * mp + 2) / 5 + d - 1 - 719468
  {
  }

  lemma EraEndLength(era: int, y: int)
    requires y == era * 400 + 399
    ensures YearStart(y + 1) - YearStart(y) == if IsLeap(y + 1) then 366 else 365
  {
    DivWithin(era, 399, y);
    DivExact(era + 1, y + 1);
  }

  lemma InEraLength(era: int, k: int, y: int)
    requires y == era * 400 + k - 1 && 0 < k < 400
    ensures YearStart(y + 1) - YearStart(y) == if IsLeap(y + 1) then 366 else 365
  {
    DivWithin(era, k - 1, y);
    DivWithin(era, k, y + 1);
    LeapInEra(era, k, y + 1);
  }

  lemma DivExact(e: int, y: int)
    requires y == e * 400
    ensures y / 400 == e && y % 4 == 0 && y % 400 == 0
  {
  }

  lemma DivWithin(e: int, k: int, y: int)
    requires y == e * 400 + k && 0 <= k < 400
    ensures y / 400 == e
  {
  }

  /** Within an era, the leap rule for the year reads off its offset. */
  lemma LeapInEra(e: int, k: int, y: int)
    requires y == e * 400 + k && 0 < k < 400
    ensures IsLeap(y) <==> k % 4 == 0 && k % 100 != 0
    ensures k / 4 - (k - 1) / 4 == (if k % 4 == 0 then 1 else 0)
    ensures k / 100 - (k - 1) / 100 == (if k % 100 == 0 then 1 else 0)
  {
    assert y % 4 == k % 4 by { assert y == (e * 100) * 4 + k; }
    assert y % 100 == k % 100 by { assert y == (e * 4) * 100 + k; }
    assert y % 400 == k;
  }

  /** Anchors of the civil-day arithmetic: the epoch itself, and the day used
      in the timeline scenarios. */
  lemma CivilAnchors()
    ensures DayOfDate("1970-01-01") == 0
    ensures DayOfDate("2024-01-21") == 19743
  {
    EpochDigits();
    SampleDigits();
    CivilDays();
  }
}
