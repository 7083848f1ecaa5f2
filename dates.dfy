/**
 * Calendar arithmetic shared by the backend and the frontend.
 *
 * An instant is a whole number of milliseconds since 1970-01-01T00:00:00Z and
 * the local time zone is taken to be UTC, so a calendar day is the integer
 * `t / DAY_MS` (Dafny's `/` floors for a positive divisor) and day 0 is
 * Thursday 1970-01-01. A `yyyy-MM-dd` string stands for its day number: the
 * full-date strings of section 5.6 of RFC 3339 compare as strings in
 * chronological order (section 5.1), which is what the application relies on
 * when it compares them with `>`.
 */
module Dates {
  import opened Text

  const SECOND_MS: int := 1000
  const MINUTE_MS: int := 60 * SECOND_MS
  const HOUR_MS: int := 60 * MINUTE_MS
  const DAY_MS: int := 24 * HOUR_MS

  /** Milliseconds since the epoch. */
  type Instant = int

  /** The calendar day an instant falls on (`toISOString().split('T')[0]`). */
  function DayOf(t: Instant): int {
    t / DAY_MS
  }

  /** Midnight at the start of day `d` (`new Date('yyyy-MM-dd')`). */
  function Midnight(d: int): Instant {
    d * DAY_MS
  }

  /** `new Date(t).setHours(0, 0, 0, 0)`: midnight of the day of `t`. */
  function StartOfDay(t: Instant): (r: Instant)
    ensures r <= t < r + DAY_MS
    ensures DayOf(r) == DayOf(t)
  {
    Midnight(DayOf(t))
  }

  lemma MidnightDay(d: int)
    ensures DayOf(Midnight(d)) == d
  {
  }

  /** The weekday tokens the habit form stores (`mon` .. `sun`). */
  datatype Weekday = Sun | Mon | Tue | Wed | Thu | Fri | Sat

  /** `getDay()`: Sunday is 0; day 0 of the epoch is a Thursday. */
  function WeekdayIndex(d: int): (k: int)
    ensures 0 <= k < 7
    ensures d == 0 ==> k == 4
  {
    (d + 4) % 7
  }

  function WeekdayOfIndex(k: int): Weekday
    requires 0 <= k < 7
  {
    [Sun, Mon, Tue, Wed, Thu, Fri, Sat][k]
  }

  /** The lower-cased short English weekday name of day `d`, as
      `toLocaleDateString('en-US', { weekday: 'short' }).toLowerCase()` and
      `format(date, 'EEE').toLowerCase()` both give it. */
  function WeekdayOf(d: int): Weekday {
    WeekdayOfIndex(WeekdayIndex(d))
  }

  lemma WeekdayPeriodic(d: int)
    ensures WeekdayOf(d + 7) == WeekdayOf(d)
  {
  }

  predicate IsWeekend(w: Weekday) {
    w == Sat || w == Sun
  }

  /** `startOfWeek(date)`: the Sunday on or before day `d`. */
  function StartOfWeek(d: int): (r: int)
    ensures r <= d < r + 7
    ensures WeekdayOf(r) == Sun
  {
    d - WeekdayIndex(d)
  }

  /** `endOfWeek(date)`: the Saturday on or after day `d`. */
  function EndOfWeek(d: int): (r: int)
    ensures r - 7 < d <= r
    ensures WeekdayOf(r) == Sat
  {
    d + (6 - WeekdayIndex(d))
  }

  /** `eachDayOfInterval({ start, end })`. */
  function DaysBetween(start: int, end: int): (r: seq<int>)
    ensures |r| == if start <= end then end - start + 1 else 0
    ensures forall i :: 0 <= i < |r| ==> r[i] == start + i
  {
    if start <= end then seq(end - start + 1, i => start + i) else []
  }

  // ---- the proleptic Gregorian calendar ----

  predicate IsLeapYear(y: int) {
    y % 4 == 0 && (y % 100 != 0 || y % 400 == 0)
  }

  function DaysInMonth(y: int, m: int): (n: int)
    ensures 28 <= n <= 31
  {
    if m == 2 then (if IsLeapYear(y) then 29 else 28)
    else if m == 4 || m == 6 || m == 9 || m == 11 then 30
    else 31
  }

  datatype CivilDate = CivilDate(year: int, month: int, day: int)

  /** The civil date of day number `z` (the usual era-based conversion;
      Dafny's `/` and `%` already floor). */
  function CivilFromDays(z: int): CivilDate {
    var z' := z + 719468;
    var era := z' / 146097;
    var doe := z' % 146097;
    var yoe := (doe - doe / 1460 + doe / 36524 - doe / 146096) / 365;
    var doy := doe - (365 * yoe + yoe / 4 - yoe / 100);
    var mp := (5 * doy + 2) / 153;
    var d := doy - (153 * mp + 2) / 5 + 1;
    var m := if mp < 10 then mp + 3 else mp - 9;
    CivilDate(yoe + era * 400 + (if m <= 2 then 1 else 0), m, d)
  }

  /** `n` in decimal, left-padded with zeros to at least `width` characters. */
  function Pad(n: int, width: nat): (r: string)
    ensures |r| >= width
  {
    var s := NatToString(if n < 0 then -n else n);
    var digits := if n < 0 then "-" + s else s;
    if |digits| >= width then digits else seq(width - |digits|, _ => '0') + digits
  }

  /** `new Date(t).toISOString()`: `YYYY-MM-DDTHH:mm:ss.sssZ`, with a signed
      six-digit year outside 0000..9999. */
  function IsoString(t: Instant): string {
    var c := CivilFromDays(DayOf(t));
    var ms := t % DAY_MS;
    var year := if 0 <= c.year <= 9999 then Pad(c.year, 4)
                else (if c.year < 0 then "-" + Pad(-c.year, 6) else "+" + Pad(c.year, 6));
    year + "-" + Pad(c.month, 2) + "-" + Pad(c.day, 2)
    + "T" + Pad(ms / HOUR_MS, 2) + ":" + Pad(ms / MINUTE_MS % 60, 2)
    + ":" + Pad(ms / SECOND_MS % 60, 2) + "." + Pad(ms % SECOND_MS, 3) + "Z"
  }
}
