/**
 * The calendar view: the grid of whole weeks around a month, the habits due
 * on a day, the number of habits completed on a day, and the completion
 * toggle of the selected day.
 */
module HabitCalendar {
  import opened Wrappers
  import opened Dates
  import opened HabitModel
  import opened ProgressLog
  import opened Statistics
  import opened HabitToggle

  // ---- getDaysInMonth ----

  /** The first day of the month of day `d` (`startOfMonth`). */
  function MonthStart(d: int): int {
    d - (CivilFromDays(d).day - 1)
  }

  /** The number of days of the month of day `d`. */
  function MonthLength(d: int): (n: int)
    ensures 28 <= n <= 31
  {
    var c := CivilFromDays(d);
    DaysInMonth(c.year, c.month)
  }

  /** A Sunday is 4 days short of a multiple of 7, a Saturday 5. */
  lemma WeekBoundsAligned(x: int)
    ensures (StartOfWeek(x) + 4) % 7 == 0
    ensures (EndOfWeek(x) + 5) % 7 == 0
  {
    var q := (x + 4) / 7;
    assert x + 4 == 7 * q + WeekdayIndex(x);
    assert StartOfWeek(x) + 4 == 7 * q;
    assert EndOfWeek(x) + 5 == 7 * (q + 1);
  }

  /** From a Sunday to a later Saturday there are whole weeks. */
  lemma WholeWeeks(start: int, end: int)
    requires start <= end && (start + 4) % 7 == 0 && (end + 5) % 7 == 0
    ensures (end - start + 1) % 7 == 0
  {
    var a := (end + 5) / 7;
    var b := (start + 4) / 7;
    assert end - start + 1 == 7 * (a - b);
  }

  /** The weeks around a month of `len` days starting on day `first`: four to
      six of them. */
  lemma GridSize(first: int, len: int)
    requires 28 <= len <= 31
    ensures var n := EndOfWeek(first + len - 1) - StartOfWeek(first) + 1;
      28 <= n <= 42 && n % 7 == 0
  {
    var start, end := StartOfWeek(first), EndOfWeek(first + len - 1);
    WeekBoundsAligned(first);
    WeekBoundsAligned(first + len - 1);
    WholeWeeks(start, end);
    var n := end - start + 1;
    assert len <= n <= len + 12;
    var m := n / 7;
    assert n == 7 * m;
    assert m <= 6;
  }

  /** The whole weeks around the `len` days from day `first` on. */
  function WeeksAround(first: int, len: int): (r: seq<int>)
    requires 28 <= len <= 31
    ensures 28 <= |r| <= 42 && |r| % 7 == 0
    ensures forall i :: 0 <= i < |r| ==> r[i] == r[0] + i
    ensures WeekdayOf(r[0]) == Sun && WeekdayOf(r[|r| - 1]) == Sat
    ensures first - 7 < r[0] <= first
    ensures first + len - 1 <= r[|r| - 1] < first + len + 6
    ensures forall x :: first <= x < first + len ==> x in r
  {
    var last := first + len - 1;
    var start := StartOfWeek(first);
    var end := EndOfWeek(last);
    GridSize(first, len);
    var r := DaysBetween(start, end);
    forall x | first <= x <= last
      ensures x in r
    {
      assert r[x - start] == x;
    }
    r
  }

  /** `eachDayOfInterval` from the Sunday on or before the first of the month
      to the Saturday on or after its last day: whole weeks, four to six of
      them, covering every day of the month. */
  function MonthGrid(d: int): (r: seq<int>)
    ensures 28 <= |r| <= 42 && |r| % 7 == 0
    ensures forall i :: 0 <= i < |r| ==> r[i] == r[0] + i
    ensures WeekdayOf(r[0]) == Sun && WeekdayOf(r[|r| - 1]) == Sat
    ensures MonthStart(d) - 7 < r[0] <= MonthStart(d)
    ensures MonthStart(d) + MonthLength(d) - 1 <= r[|r| - 1] < MonthStart(d) + MonthLength(d) + 6
    ensures forall x :: MonthStart(d) <= x < MonthStart(d) + MonthLength(d) ==> x in r
  {
    WeeksAround(MonthStart(d), MonthLength(d))
  }

  // ---- getHabitsForDate ----

  /** The start-date gate: both sides at midnight, and no gate when the habit
      has no start date (`new Date(undefined)` compares false). */
  predicate StartedBy(h: Habit, date: Instant) {
    h.startDate.None? || StartOfDay(date) >= StartOfDay(h.startDate.value)
  }

  /** Comparing midnights is comparing calendar days. */
  lemma StartedByDay(h: Habit, date: Instant)
    ensures StartedBy(h, date) <==> h.startDate.None? || DayOf(date) >= DayOf(h.startDate.value)
  {
    if h.startDate.Some? {
      var s := h.startDate.value;
      if DayOf(date) >= DayOf(s) {
        assert StartOfDay(date) >= StartOfDay(s);
      }
    }
  }

  /** Whether the calendar lists a habit on `date`. */
  predicate CalendarDue(h: Habit, date: Instant) {
    StartedBy(h, date) && ScheduleAllows(h, WeekdayOf(DayOf(date)))
  }

  function CalendarDueAt(date: Instant): Habit -> bool {
    (h: Habit) => CalendarDue(h, date)
  }

  /** `getHabitsForDate(date)`: the habits due on `date`. */
  function HabitsForDate(hs: seq<Habit>, date: Instant): (r: seq<Habit>)
    ensures |r| == CountHabits(hs, CalendarDueAt(date))
    ensures forall h :: h in r <==> h in hs && CalendarDue(h, date)
  {
    if hs == [] then []
    else
      var init := hs[..|hs| - 1];
      var last := hs[|hs| - 1];
      assert hs == init + [last];
      HabitsForDate(init, date) + (if CalendarDue(last, date) then [last] else [])
  }

  // ---- getCompletedHabits ----

  /** `progress.some(p => <day of p.date> === day && p.completed)`: any entry of
      the day counts, not only the first. */
  predicate HasCompletedEntry(ps: seq<ProgressEntry>, day: int) {
    exists k :: 0 <= k < |ps| && DayOf(ps[k].date) == day && ps[k].completed
  }

  predicate CountsAsCompleted(h: Habit, date: Instant) {
    StartedBy(h, date) && HasCompletedEntry(h.progress, DayOf(date))
  }

  function CompletedAt(date: Instant): Habit -> bool {
    (h: Habit) => CountsAsCompleted(h, date)
  }

  /** `getCompletedHabits(date)`: the number of started habits with a
      completed entry on the day, whatever their schedule. */
  function CompletedHabits(hs: seq<Habit>, date: Instant): (n: nat)
    ensures n <= |hs|
    ensures hs == [] ==> n == 0
    ensures n == |set i | 0 <= i < |hs| && CountsAsCompleted(hs[i], date)|
  {
    CountHabitsIndices(hs, CompletedAt(date));
    assert (set i | 0 <= i < |hs| && CompletedAt(date)(hs[i])) == (set i | 0 <= i < |hs| && CountsAsCompleted(hs[i], date));
    CountHabits(hs, CompletedAt(date))
  }

  lemma {:induction false} CountHabitsImpliesOn(hs: seq<Habit>, p: Habit -> bool, q: Habit -> bool)
    requires forall h :: h in hs && p(h) ==> q(h)
    ensures CountHabits(hs, p) <= CountHabits(hs, q)
  {
    if hs != [] {
      var init := hs[..|hs| - 1];
      assert forall h :: h in init ==> h in hs;
      CountHabitsImpliesOn(init, p, q);
    }
  }

  /** When every habit completed on the day is also scheduled on it, the
      calendar cell's completed count never exceeds its due count. */
  lemma CompletedWithinDue(hs: seq<Habit>, date: Instant)
    requires forall h :: h in hs && CountsAsCompleted(h, date) ==> ScheduleAllows(h, WeekdayOf(DayOf(date)))
    ensures CompletedHabits(hs, date) <= |HabitsForDate(hs, date)|
  {
    CountHabitsImpliesOn(hs, CompletedAt(date), CalendarDueAt(date));
  }

  function CalendarHabit(id: string, frequency: Frequency, progress: seq<ProgressEntry>): Habit {
    Habit(id, "u", "h", None, None, frequency, [], None, false, 1, DEFAULT_COLOR, Medium, 0, progress)
  }

  /** The schedule is ignored: a weekly habit with no days that was completed
      on day 0 counts as completed there but is not listed, so the cell reads
      2/1. */
  lemma CompletedCanExceedDue()
    ensures var hs := [CalendarHabit("a", Daily, [ProgressEntry(0, true, 1)]),
                       CalendarHabit("b", Weekly, [ProgressEntry(0, true, 1)])];
      CompletedHabits(hs, 0) == 2 && |HabitsForDate(hs, 0)| == 1
  {
    var hs := [CalendarHabit("a", Daily, [ProgressEntry(0, true, 1)]),
               CalendarHabit("b", Weekly, [ProgressEntry(0, true, 1)])];
    assert hs[..1] == [hs[0]];
    assert [hs[0]][..0] == [];
    assert CountsAsCompleted(hs[0], 0) && CountsAsCompleted(hs[1], 0) by {
      assert DayOf(hs[0].progress[0].date) == 0;
      assert DayOf(hs[1].progress[0].date) == 0;
    }
    assert !CalendarDue(hs[1], 0);
  }

  // ---- toggleHabitCompletion ----

  /** The request the calendar sends for the selected day: none for a day
      after today, else the shared toggle body. */
  function CalendarToggle(h: Habit, selectedDay: int, today: int): (r: Option<ProgressInput>)
    ensures r.None? <==> selectedDay > today
    ensures r.Some? ==> r.value == TogglePayload(h, selectedDay) && DayOf(r.value.date.value) <= today
  {
    if selectedDay > today then None else Some(TogglePayload(h, selectedDay))
  }
}
