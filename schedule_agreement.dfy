/**
 * The "is this habit due" check exists in four versions that share the
 * frequency switch but differ in the start-date gate: the statistics page
 * compares instants, the calendar compares midnights, the profile page also
 * refuses a habit without a start date, and the notification service has no
 * gate at all. These lemmas relate them.
 */
module ScheduleAgreement {
  import opened Wrappers
  import opened Dates
  import opened HabitModel
  import opened ProgressLog
  import opened Statistics
  import opened HabitCalendar
  import Profile
  import NotificationService

  /** Midnights keep the order of the instants they start. */
  lemma {:induction false} StartOfDayMonotone(a: Instant, b: Instant)
    requires a <= b
    ensures StartOfDay(a) <= StartOfDay(b)
  {
    assert DayOf(a) <= DayOf(b) by {
      if DayOf(a) > DayOf(b) {
        assert StartOfDay(b) + DAY_MS <= StartOfDay(a) by {
          assert Midnight(DayOf(b) + 1) <= Midnight(DayOf(a));
        }
        assert false;
      }
    }
  }

  /** Every habit the statistics page counts as due on an instant is listed
      by the calendar on that day. */
  lemma StatisticsDueIsCalendarDue(h: Habit, t: Instant)
    ensures DueOnDate(h, t) ==> CalendarDue(h, t)
  {
    if DueOnDate(h, t) && h.startDate.Some? {
      StartOfDayMonotone(h.startDate.value, t);
    }
  }

  /** When the start date, if any, is a midnight, the two agree. */
  lemma CalendarAgreesAtMidnight(h: Habit, t: Instant)
    requires h.startDate.Some? ==> h.startDate.value == StartOfDay(h.startDate.value)
    ensures DueOnDate(h, t) <==> CalendarDue(h, t)
  {
    StatisticsDueIsCalendarDue(h, t);
  }

  /** A start date later on the same day: the calendar lists the habit for
      the whole day, the statistics page not before the start time. */
  lemma CalendarAheadOfStatistics()
    ensures var h := CalendarHabit("a", Daily, []).(startDate := Some(12 * HOUR_MS));
      CalendarDue(h, HOUR_MS) && !DueOnDate(h, HOUR_MS)
  {
    var h := CalendarHabit("a", Daily, []).(startDate := Some(12 * HOUR_MS));
    assert StartOfDay(HOUR_MS) == 0 && StartOfDay(12 * HOUR_MS) == 0;
  }

  /** The profile page's check is the statistics page's check plus the
      requirement of a start date. */
  lemma ProfileIsStatisticsWithStart(h: Habit, now: Instant)
    ensures Profile.DueToday(h, now) <==> h.startDate.Some? && DueOnDate(h, now)
  {
  }

  /** The service's check drops the gate: it agrees with the statistics page
      once the habit has started, and says due on days before the start. */
  lemma ServiceIgnoresStart(h: Habit, t: Instant)
    ensures DueOnDate(h, t) ==> NotificationService.DueToday(h, t)
    ensures h.startDate.None? || h.startDate.value <= t ==>
      (DueOnDate(h, t) <==> NotificationService.DueToday(h, t))
  {
  }

  /** A daily habit that starts ten days from now is in the morning summary
      today, but no other page counts it as due. */
  lemma ServiceDueBeforeStart(now: Instant)
    ensures var h := CalendarHabit("a", Daily, []).(startDate := Some(now + 10 * DAY_MS));
      NotificationService.DueToday(h, now) && !DueOnDate(h, now) && !CalendarDue(h, now)
      && !Profile.DueToday(h, now)
  {
    var h := CalendarHabit("a", Daily, []).(startDate := Some(now + 10 * DAY_MS));
    assert DayOf(now + 10 * DAY_MS) == DayOf(now) + 10;
  }

  /** Apart from the service's, no version is due before the start day. */
  lemma NeverDueBeforeStartDay(h: Habit, t: Instant)
    requires h.startDate.Some? && DayOf(t) < DayOf(h.startDate.value)
    ensures !DueOnDate(h, t) && !CalendarDue(h, t) && !Profile.DueToday(h, t)
  {
    StartedByDay(h, t);
    if h.startDate.value <= t {
      StartOfDayMonotone(h.startDate.value, t);
    }
  }
}
