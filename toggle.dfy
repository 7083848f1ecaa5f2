/**
 * The completion toggle the habit list and the calendar share: the body they
 * send to `updateProgress` for one calendar day, and how they put the habit
 * the server returns back into their list.
 */
module HabitToggle {
  import opened Wrappers
  import opened Dates
  import opened HabitModel
  import opened ProgressLog
  import opened HabitController

  /** The body sent for day `day`: the day's `yyyy-MM-dd` key, the negation of
      the flag of the day's first entry (true when there is none), and the
      habit's target quantity when completing, 0 when un-completing. */
  function TogglePayload(h: Habit, day: int): (body: ProgressInput)
    ensures body.date.Some? && DayOf(body.date.value) == day
    ensures body.completed == Some(!CompletedOnDay(h.progress, day))
    ensures body.quantityDone == Some(if CompletedOnDay(h.progress, day) then 0 else h.quantity)
  {
    MidnightDay(day);
    var completed := !CompletedOnDay(h.progress, day);
    ProgressInput(Some(Midnight(day)), Some(completed), Some(if completed then h.quantity else 0))
  }

  /** The log the server stores once it has applied the toggle of `day`. */
  function Toggled(h: Habit, day: int): seq<ProgressEntry> {
    var body := TogglePayload(h, day);
    Upserted(h.progress, EntryOf(body.date.value, body))
  }

  /** After the toggle the day's flag is the opposite of what it was, its
      quantity is the target or 0 accordingly, and every other day keeps
      its entry. */
  lemma ToggleFlips(h: Habit, day: int, d: int)
    ensures CompletedOnDay(Toggled(h, day), day) == !CompletedOnDay(h.progress, day)
    ensures var e := EntryOnDay(Toggled(h, day), day);
      e.Some? && e.value.quantityDone == (if e.value.completed then h.quantity else 0)
    ensures d != day ==> EntryOnDay(Toggled(h, day), d) == EntryOnDay(h.progress, d)
  {
    var body := TogglePayload(h, day);
    var e := EntryOf(body.date.value, body);
    UpsertedLookup(h.progress, e, day);
    UpsertedLookup(h.progress, e, d);
  }

  /** Toggling the same day twice restores its completed flag. */
  lemma ToggleTwiceRestores(h: Habit, day: int)
    ensures CompletedOnDay(Toggled(h.(progress := Toggled(h, day)), day), day) == CompletedOnDay(h.progress, day)
  {
    ToggleFlips(h, day, day);
    ToggleFlips(h.(progress := Toggled(h, day)), day, day);
  }

  /** `habits.map(h => h._id === id ? updated : h)`. */
  function ReplaceById(hs: seq<Habit>, id: string, updated: Habit): (r: seq<Habit>)
    ensures |r| == |hs|
    ensures forall k :: 0 <= k < |hs| ==> r[k] == if hs[k].id == id then updated else hs[k]
  {
    if hs == [] then []
    else
      var rest := ReplaceById(hs[..|hs| - 1], id, updated);
      var last := hs[|hs| - 1];
      rest + [if last.id == id then updated else last]
  }

  /** Replacing the same habit again changes nothing when the replacement
      keeps the id. */
  lemma ReplaceByIdIdempotent(hs: seq<Habit>, id: string, updated: Habit)
    requires updated.id == id
    ensures ReplaceById(ReplaceById(hs, id, updated), id, updated) == ReplaceById(hs, id, updated)
  {
  }
}
