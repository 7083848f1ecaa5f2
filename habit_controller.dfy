/**
 * The habit controller of the backend: the body `createHabit` hands to the
 * schema, the progress upsert of `updateProgress` and the dashboard figures of
 * `getHabitStats`. The database is replaced by in-memory documents: a habit
 * document whose `progress` array is updated in place, and the list of the
 * user's habits for the statistics.
 */
module HabitController {
  import opened Wrappers
  import opened Dates
  import opened HabitModel
  import opened ProgressLog

  // ---- createHabit ----

  /** The body with `user` set to the authenticated user, and `metric` set to
      `'times'` when the habit is quantity based and no metric was given. */
  function CreateHabitData(body: HabitInput, user: string): (r: HabitInput)
    ensures r.user == Some(user)
    ensures r.metric == (if body.isQuantityBased == Some(true) && (body.metric.None? || body.metric.value == [])
                         then Some("times") else body.metric)
    ensures r.(user := body.user, metric := body.metric) == body
  {
    var withUser := body.(user := Some(user));
    if body.isQuantityBased == Some(true) && (body.metric.None? || body.metric.value == []) then
      withUser.(metric := Some("times"))
    else withUser
  }

  /** `Habit.create(habitData)`: the stored habit, or the validation errors. */
  function CreateHabit(body: HabitInput, user: string, id: string, now: Instant): (r: Result<Habit, seq<SchemaError>>)
    ensures r.Success? ==> r.value.user == user && r.value.id == id && ValidHabit(r.value)
    ensures r.Failure? ==> r.error != [] && UserRequired !in r.error
  {
    var data := CreateHabitData(body, user);
    var r := Validate(data, id, now);
    UserErrorIffMissing(data);
    assert r.Failure? ==> r.error == SchemaErrors(data);
    r
  }

  // ---- updateProgress ----

  /** The log after recording `e`: the first entry of the same calendar day is
      overwritten in place, and when there is none `e` is appended. */
  function Upserted(ps: seq<ProgressEntry>, e: ProgressEntry): (r: seq<ProgressEntry>)
    ensures var i := FindDayIndex(ps, DayOf(e.date));
      if i >= 0 then |r| == |ps| && r[i] == e && forall k :: 0 <= k < |ps| && k != i ==> r[k] == ps[k]
      else r == ps + [e]
  {
    var i := FindDayIndex(ps, DayOf(e.date));
    if i > -1 then ps[i := e] else ps + [e]
  }

  /** Read through `EntryOnDay`, the log behaves as a map from calendar days
      to entries, and recording `e` updates it at the day of `e` only. */
  lemma UpsertedLookup(ps: seq<ProgressEntry>, e: ProgressEntry, d: int)
    ensures EntryOnDay(Upserted(ps, e), d) == if d == DayOf(e.date) then Some(e) else EntryOnDay(ps, d)
  {
    var r := Upserted(ps, e);
    var i := FindDayIndex(ps, DayOf(e.date));
    var j := FindDayIndex(ps, d);
    if d == DayOf(e.date) {
      if i >= 0 {
        FindDayIndexIs(r, d, i);
      } else {
        FindDayIndexIs(r, d, |ps|);
      }
    } else if j >= 0 {
      FindDayIndexIs(r, d, j);
    } else {
      FindDayIndexNone(r, d);
    }
  }

  /** Recording keeps at most one entry per day, and the growth is at most one. */
  lemma UpsertedOnePerDay(ps: seq<ProgressEntry>, e: ProgressEntry)
    requires OnePerDay(ps)
    ensures OnePerDay(Upserted(ps, e))
    ensures |ps| <= |Upserted(ps, e)| <= |ps| + 1
  {
    var r := Upserted(ps, e);
    var i := FindDayIndex(ps, DayOf(e.date));
    forall a, b | 0 <= a < b < |r|
      ensures DayOf(r[a].date) != DayOf(r[b].date)
    {
      if i < 0 && b == |ps| {
        assert r[a] == ps[a];
      }
    }
  }

  /** A habit document: its id and owner never change, its log is updated in place. */
  class HabitDocument {
    const id: string
    const owner: string
    var progress: seq<ProgressEntry>

    constructor(id: string, owner: string, progress: seq<ProgressEntry>)
      ensures this.id == id && this.owner == owner && this.progress == progress
    {
      this.id := id;
      this.owner := owner;
      this.progress := progress;
    }

    /** `progress[progressIndex] = entry` or `progress.push(entry)`. */
    method Record(e: ProgressEntry)
      modifies this
      ensures progress == Upserted(old(progress), e)
    {
      var i := FindDayIndex(progress, DayOf(e.date));
      if i > -1 {
        progress := progress[i := e];
      } else {
        progress := progress + [e];
      }
    }
  }

  /** `Habit.findOne({ _id: id, user })`: a document of that id owned by that user. */
  function FindHabit(docs: seq<HabitDocument>, id: string, user: string): (r: HabitDocument?)
    ensures r != null ==> r in docs && r.id == id && r.owner == user
    ensures r == null ==> forall k :: 0 <= k < |docs| ==> !(docs[k].id == id && docs[k].owner == user)
  {
    if docs == [] then null
    else if docs[0].id == id && docs[0].owner == user then docs[0]
    else FindHabit(docs[1..], id, user)
  }

  datatype ProgressError =
    /** No habit of that id belongs to the user (404). */
    | NotFound
    /** The body has no date: `new Date(undefined).toISOString()` throws, or
        the schema refuses the pushed entry, and nothing is saved. */
    | DateRequired

  /** The stored entry of a progress body, with the schema's defaults. */
  function EntryOf(date: Instant, body: ProgressInput): (e: ProgressEntry)
    ensures e.date == date
    ensures e.completed == (body.completed == Some(true))
    ensures e.quantityDone == body.quantityDone.GetOr(0)
  {
    ProgressEntry(date, body.completed.GetOr(false), body.quantityDone.GetOr(0))
  }

  /** `updateProgress` on the document `findOne` returned (null when none). */
  method UpdateProgress(doc: HabitDocument?, body: ProgressInput) returns (r: Result<seq<ProgressEntry>, ProgressError>)
    modifies doc
    ensures doc == null ==> r == Failure(NotFound)
    ensures doc != null && body.date.None? ==> r == Failure(DateRequired) && doc.progress == old(doc.progress)
    ensures doc != null && body.date.Some? ==>
      && doc.progress == Upserted(old(doc.progress), EntryOf(body.date.value, body))
      && r == Success(doc.progress)
  {
    if doc == null {
      return Failure(NotFound);
    }
    if body.date.None? {
      return Failure(DateRequired);
    }
    doc.Record(EntryOf(body.date.value, body));
    r := Success(doc.progress);
  }

  // ---- getHabitStats: the streak counters ----

  /** `tempStreak`, `bestStreak` and `currentStreak`. */
  datatype StreakCounters = StreakCounters(temp: nat, best: nat, current: nat)

  const NoStreak := StreakCounters(0, 0, 0)

  /** The best streak bounds the other two counters. */
  predicate Ordered(s: StreakCounters) {
    s.temp <= s.best && s.current <= s.best
  }

  /** One iteration of the streak loop, at the first (newest) entry or not. */
  function StreakStep(s: StreakCounters, first: bool, completed: bool): (r: StreakCounters)
    ensures Ordered(s) ==> Ordered(r)
    ensures r.best >= s.best && r.current >= s.current
    ensures r.temp == if completed then s.temp + 1 else 0
    ensures !first ==> r.current == s.current
  {
    if completed then
      var t := s.temp + 1;
      StreakCounters(t, Max(s.best, t), if first then Max(s.current, t) else s.current)
    else
      StreakCounters(0, s.best, if first then Max(s.current, s.temp) else s.current)
  }

  /** The counters after the first `n` entries of `ps`. */
  function WalkPrefix(s: StreakCounters, ps: seq<ProgressEntry>, n: nat): (r: StreakCounters)
    requires n <= |ps|
    ensures Ordered(s) ==> Ordered(r)
    ensures r.best >= s.best
  {
    if n == 0 then s else StreakStep(WalkPrefix(s, ps, n - 1), n == 1, ps[n - 1].completed)
  }

  /** The counters after the loops over `hs`, each habit's log newest first,
      with `tempStreak` carried from one habit to the next as the code does. */
  function SharedStreaks(hs: seq<Habit>): (r: StreakCounters)
    ensures Ordered(r)
  {
    if hs == [] then NoStreak
    else
      var ps := SortNewestFirst(hs[|hs| - 1].progress);
      WalkPrefix(SharedStreaks(hs[..|hs| - 1]), ps, |ps|)
  }

  lemma {:induction false} WalkBound(s: StreakCounters, ps: seq<ProgressEntry>, n: nat, c: nat)
    requires n <= |ps| && s.temp <= c && s.best <= c
    ensures WalkPrefix(s, ps, n).temp <= c + Count(ps[..n], CompletedFlag())
    ensures WalkPrefix(s, ps, n).best <= c + Count(ps[..n], CompletedFlag())
  {
    if n > 0 {
      WalkBound(s, ps, n - 1, c);
      assert ps[..n] == ps[..n - 1] + [ps[n - 1]];
      CountAppend(ps[..n - 1], [ps[n - 1]], CompletedFlag());
    }
  }

  /** Even with the counter shared across habits, the best streak never exceeds
      the number of completed entries. */
  lemma {:induction false} SharedStreaksBound(hs: seq<Habit>)
    ensures SharedStreaks(hs).temp <= CountAcross(hs, CompletedFlag())
    ensures SharedStreaks(hs).best <= CountAcross(hs, CompletedFlag())
  {
    if hs != [] {
      var init := hs[..|hs| - 1];
      var ps := SortNewestFirst(hs[|hs| - 1].progress);
      SharedStreaksBound(init);
      WalkBound(SharedStreaks(init), ps, |ps|, CountAcross(init, CompletedFlag()));
      assert ps[..|ps|] == ps;
      CountSorted(hs[|hs| - 1].progress, CompletedFlag());
    }
  }

  // ---- getHabitStats: the corrected streak, reset for every habit ----

  /** The counters with `tempStreak` reset to 0 before each habit. */
  function PerHabitStreaks(hs: seq<Habit>): (r: StreakCounters)
    ensures Ordered(r)
  {
    if hs == [] then NoStreak
    else
      var ps := SortNewestFirst(hs[|hs| - 1].progress);
      var s := PerHabitStreaks(hs[..|hs| - 1]);
      WalkPrefix(s.(temp := 0), ps, |ps|)
  }

  /** The best run over all habits' logs, newest first. */
  function BestRunAcross(hs: seq<Habit>): nat {
    if hs == [] then 0
    else
      var ps := SortNewestFirst(hs[|hs| - 1].progress);
      Max(BestRunAcross(hs[..|hs| - 1]), LongestRun(ps, |ps|))
  }

  lemma {:induction false} WalkFromZero(b: nat, c: nat, ps: seq<ProgressEntry>, n: nat)
    requires n <= |ps|
    ensures WalkPrefix(StreakCounters(0, b, c), ps, n).temp == RunEndingAt(ps, n)
    ensures WalkPrefix(StreakCounters(0, b, c), ps, n).best == Max(b, LongestRun(ps, n))
  {
    if n > 0 {
      WalkFromZero(b, c, ps, n - 1);
    }
  }

  /** With the reset, the best streak is the longest run of completed entries
      within a single habit's log. */
  lemma {:induction false} PerHabitBestIsLongestRun(hs: seq<Habit>)
    ensures PerHabitStreaks(hs).best == BestRunAcross(hs)
  {
    if hs != [] {
      var ps := SortNewestFirst(hs[|hs| - 1].progress);
      var s := PerHabitStreaks(hs[..|hs| - 1]);
      PerHabitBestIsLongestRun(hs[..|hs| - 1]);
      WalkFromZero(s.best, s.current, ps, |ps|);
    }
  }

  /** A habit with a single completed entry at day 0. */
  function OneDayHabit(id: string): Habit {
    Habit(id, "u", "h", None, Some(0), Daily, [], None, false, 1, DEFAULT_COLOR, Medium, 0,
          [ProgressEntry(0, true, 0)])
  }

  /** Two habits with one completed day each: the shared counter reports a best
      streak of 2, though no habit has a run longer than 1. */
  lemma SharedStreakCounterexample()
    ensures SharedStreaks([OneDayHabit("a"), OneDayHabit("b")]).best == 2
    ensures PerHabitStreaks([OneDayHabit("a"), OneDayHabit("b")]).best == 1
  {
    var hs := [OneDayHabit("a"), OneDayHabit("b")];
    var ps := [ProgressEntry(0, true, 0)];
    assert SortNewestFirst(ps) == ps;
    assert hs[..1] == [OneDayHabit("a")];
    assert hs[..1][..0] == [];
  }

  // ---- getHabitStats ----

  datatype HabitStats = HabitStats(
    activeHabits: nat,
    completionRate: nat,
    weekOverWeekChange: int,
    currentStreak: nat,
    bestStreak: nat,
    achievements: nat,
    newAchievements: nat)

  /** The last seven days, `[now - 7 days, ...)`. */
  function RecentWindow(now: Instant): Window {
    Window(now - 7 * DAY_MS, None)
  }

  /** The week before, `[now - 14 days, now - 7 days)`. */
  function PreviousWindow(now: Instant): Window {
    Window(now - 14 * DAY_MS, Some(now - 7 * DAY_MS))
  }

  /** The rate of completed entries among the entries of window `w`. */
  function WindowRate(hs: seq<Habit>, w: Window): (r: nat)
    ensures r <= 100
  {
    CountAcrossImplies(hs, CompletedWithin(w), DatedWithin(w));
    RoundPercent(CountAcross(hs, CompletedWithin(w)), CountAcross(hs, DatedWithin(w)))
  }

  /** The loop `for (let i = 0; i < allProgress.length; i++)` over one habit's
      log, newest first, updating the shared counters. */
  method StreakLoop(temp0: nat, best0: nat, current0: nat, all: seq<ProgressEntry>)
    returns (tempStreak: nat, bestStreak: nat, currentStreak: nat)
    ensures StreakCounters(tempStreak, bestStreak, currentStreak)
         == WalkPrefix(StreakCounters(temp0, best0, current0), all, |all|)
  {
    tempStreak, bestStreak, currentStreak := temp0, best0, current0;
    var i := 0;
    while i < |all|
      invariant 0 <= i <= |all|
      invariant StreakCounters(tempStreak, bestStreak, currentStreak)
             == WalkPrefix(StreakCounters(temp0, best0, current0), all, i)
    {
      if all[i].completed {
        tempStreak := tempStreak + 1;
        if i == 0 {
          currentStreak := Max(currentStreak, tempStreak);
        }
        bestStreak := Max(bestStreak, tempStreak);
      } else {
        if i == 0 {
          currentStreak := Max(currentStreak, tempStreak);
        }
        tempStreak := 0;
      }
      i := i + 1;
    }
  }

  /** `getHabitStats` over the user's habits at time `now`. */
  method GetHabitStats(habits: seq<Habit>, now: Instant) returns (st: HabitStats)
    ensures st.activeHabits == |habits|
    ensures st.completionRate == WindowRate(habits, RecentWindow(now)) <= 100
    ensures st.weekOverWeekChange == st.completionRate - WindowRate(habits, PreviousWindow(now))
    ensures -100 <= st.weekOverWeekChange <= 100
    ensures st.achievements == CountAcross(habits, CompletedWithin(RecentWindow(now))) / 10
    ensures st.newAchievements <= 2 && st.newAchievements <= st.achievements
    ensures st.newAchievements == 0 <==> st.achievements == 0
    ensures st.newAchievements == Min(st.achievements, 2)
    ensures st.currentStreak == SharedStreaks(habits).current
    ensures st.bestStreak == SharedStreaks(habits).best
    ensures st.currentStreak <= st.bestStreak
  {
    var recent := RecentWindow(now);
    var totalChecks: nat, completedChecks: nat := 0, 0;
    var tempStreak: nat, bestStreak: nat, currentStreak: nat := 0, 0, 0;
    var k := 0;
    while k < |habits|
      invariant 0 <= k <= |habits|
      invariant totalChecks == CountAcross(habits[..k], DatedWithin(recent))
      invariant completedChecks == CountAcross(habits[..k], CompletedWithin(recent))
      invariant StreakCounters(tempStreak, bestStreak, currentStreak) == SharedStreaks(habits[..k])
    {
      var h := habits[k];
      assert habits[..k + 1][..k] == habits[..k] && habits[..k + 1][k] == h;
      totalChecks := totalChecks + Count(h.progress, DatedWithin(recent));
      completedChecks := completedChecks + Count(h.progress, CompletedWithin(recent));
      var all := SortNewestFirst(h.progress);
      tempStreak, bestStreak, currentStreak := StreakLoop(tempStreak, bestStreak, currentStreak, all);
      k := k + 1;
    }
    assert habits[..k] == habits;
    var completionRate := RoundPercent(completedChecks, totalChecks);
    assert completionRate == WindowRate(habits, recent);
    var previousRate := WindowRate(habits, PreviousWindow(now));
    var change: int := completionRate as int - previousRate as int;
    var achievements := completedChecks / 10;
    st := HabitStats(
      activeHabits := |habits|,
      completionRate := completionRate,
      weekOverWeekChange := change,
      currentStreak := currentStreak,
      bestStreak := bestStreak,
      achievements := achievements,
      newAchievements := if achievements > 0 then Min(achievements, 2) else 0);
  }
}
