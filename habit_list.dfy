/**
 * The habit list: deleting a habit from the shown list, the completion
 * toggle for today, the icon of a habit and the completed badge of today.
 */
module HabitList {
  import opened Wrappers
  import opened Dates
  import opened HabitModel
  import opened ProgressLog
  import opened HabitToggle
  import opened HabitForm

  /** `habits.filter(habit => habit._id !== habitId)`. */
  function RemoveById(hs: seq<Habit>, id: string): (r: seq<Habit>)
    ensures |r| <= |hs|
    ensures forall h :: h in r <==> h in hs && h.id != id
  {
    if hs == [] then []
    else if hs[0].id == id then RemoveById(hs[1..], id)
    else [hs[0]] + RemoveById(hs[1..], id)
  }

  /** The deletion keeps the remaining habits in their order: it distributes
      over concatenation. */
  lemma {:induction false} RemoveByIdAppend(a: seq<Habit>, b: seq<Habit>, id: string)
    ensures RemoveById(a + b, id) == RemoveById(a, id) + RemoveById(b, id)
  {
    if a == [] {
      assert a + b == b;
    } else {
      assert (a + b)[0] == a[0];
      assert (a + b)[1..] == a[1..] + b;
      RemoveByIdAppend(a[1..], b, id);
    }
  }

  /** A list without that id is left as it is. */
  lemma {:induction false} RemoveAbsentId(hs: seq<Habit>, id: string)
    requires forall k :: 0 <= k < |hs| ==> hs[k].id != id
    ensures RemoveById(hs, id) == hs
  {
    if hs != [] {
      RemoveAbsentId(hs[1..], id);
    }
  }

  /** The body `toggleHabitCompletion` sends: the shared toggle for today's
      UTC calendar day. */
  function ListToggle(h: Habit, now: Instant): (body: ProgressInput)
    ensures body.date.Some? && DayOf(body.date.value) == DayOf(now)
    ensures body == TogglePayload(h, DayOf(now))
  {
    TogglePayload(h, DayOf(now))
  }

  /** The badge: the `completed` flag of today's first entry, false without one. */
  predicate TodayCompleted(h: Habit, now: Instant) {
    CompletedOnDay(h.progress, DayOf(now))
  }

  /** The toggle turns the badge over, and leaves every other day's entry as
      it was. */
  lemma ListToggleFlipsBadge(h: Habit, now: Instant, d: int)
    ensures TodayCompleted(h.(progress := Toggled(h, DayOf(now))), now) == !TodayCompleted(h, now)
    ensures d != DayOf(now) ==> EntryOnDay(Toggled(h, DayOf(now)), d) == EntryOnDay(h.progress, d)
  {
    ToggleFlips(h, DayOf(now), d);
  }

  /** The badge ignores quantities: a quantity-based habit whose target is met
      today but whose flag is off shows as not completed, although the
      details panel counts the entry as completed. */
  lemma BadgeIgnoresQuantity()
    ensures var h := Habit("a", "u", "h", None, None, Daily, [], None, true, 1, DEFAULT_COLOR, Medium, 0,
                           [ProgressEntry(0, false, 5)]);
      !TodayCompleted(h, 0) && IsCompleted(h, h.progress[0])
  {
    var h := Habit("a", "u", "h", None, None, Daily, [], None, true, 1, DEFAULT_COLOR, Medium, 0,
                   [ProgressEntry(0, false, 5)]);
    assert FindDayIndex(h.progress, 0) == 0;
  }

  /** No catalogue entry uses the fallback glyph. */
  lemma CatalogueHasNoCircle()
    ensures forall k :: 0 <= k < |HABIT_ICONS| ==> HABIT_ICONS[k].icon != Circle
  {
  }

  /** `getHabitIcon(i)`: the catalogue's icon at `i`, or the fallback circle
      for a position outside the catalogue. */
  function HabitIconAt(i: int): (g: Glyph)
    ensures g == Circle <==> !(0 <= i < |HABIT_ICONS|)
    ensures 0 <= i < |HABIT_ICONS| ==> g == HABIT_ICONS[i].icon
  {
    CatalogueHasNoCircle();
    if 0 <= i < |HABIT_ICONS| then HABIT_ICONS[i].icon else Circle
  }

  /** A habit saved after a click on the `k`-th shown icon is listed with that
      icon when the form stores the catalogue position. */
  lemma ListShowsSelectedIcon(form: FormData, filter: string, k: nat)
    requires k < |FilteredIcons(filter)|
    ensures HabitIconAt(SelectIcon(form, filter, k).selectedIcon) == FilteredIcons(filter)[k].icon
  {
  }

  /** As written, a click on Exercise under the search "fitness" is listed with
      Health's icon. */
  lemma ListShowsWrongIconAsWritten(form: FormData)
    ensures |FilteredIcons("fitness")| > 0
    ensures FilteredIcons("fitness")[0].icon == Dumbbell
    ensures HabitIconAt(SelectIconAsWritten(form, "fitness", 0).selectedIcon) == HeartPulse
  {
    SelectionMismatchUnderFilter(form);
    CatalogueStart();
    assert HabitIconAt(0) == HABIT_ICONS[0].icon;
  }
}
