/**
 * The habit details panel: its `calculateStats` (the current streak, walked
 * back from today until the first missed day, and the 30-day completion
 * rate) and the list of recent activities.
 */
module HabitDetails {
  import opened Wrappers
  import opened Dates
  import opened HabitModel
  import opened ProgressLog

  /** The panel's completion rule as a condition to count by. */
  function CompletedFor(h: Habit): ProgressEntry -> bool {
    (e: ProgressEntry) => IsCompleted(h, e)
  }

  function Abs(x: int): nat {
    if x < 0 then -x else x
  }

  /** Whether the walk stops at an entry whose day starts at `progressDate`:
      the day is before today and is either more than a day from the last
      counted day or not completed. */
  predicate Breaks(h: Habit, today: Instant, lastDate: Instant, e: ProgressEntry) {
    var progressDate := StartOfDay(e.date);
    progressDate < today && (Abs(lastDate - progressDate) > DAY_MS || !IsCompleted(h, e))
  }

  /** The streak the loop returns when it resumes at index `i` with the given
      counter and last counted day. */
  function StreakFrom(h: Habit, today: Instant, ps: seq<ProgressEntry>, i: nat, streak: nat, lastDate: Instant): (r: nat)
    requires i <= |ps|
    ensures streak <= r <= streak + Count(ps[i..], CompletedFor(h))
    decreases |ps| - i
  {
    assert i == |ps| || ps[i..] == [ps[i]] + ps[i + 1..];
    if i == |ps| then streak
    else if Breaks(h, today, lastDate, ps[i]) then streak
    else if IsCompleted(h, ps[i]) then StreakFrom(h, today, ps, i + 1, streak + 1, StartOfDay(ps[i].date))
    else StreakFrom(h, today, ps, i + 1, streak, lastDate)
  }

  /** One step of the walk past an entry that does not stop it. */
  lemma StreakStep(h: Habit, today: Instant, ps: seq<ProgressEntry>, i: nat, streak: nat, lastDate: Instant)
    requires i < |ps| && !Breaks(h, today, lastDate, ps[i])
    ensures StreakFrom(h, today, ps, i, streak, lastDate)
         == if IsCompleted(h, ps[i]) then StreakFrom(h, today, ps, i + 1, streak + 1, StartOfDay(ps[i].date))
            else StreakFrom(h, today, ps, i + 1, streak, lastDate)
  {
  }

  /** The walk returns its counter at the end of the log or at an entry that stops it. */
  lemma StreakStops(h: Habit, today: Instant, ps: seq<ProgressEntry>, i: nat, streak: nat, lastDate: Instant)
    requires i == |ps| || (i < |ps| && Breaks(h, today, lastDate, ps[i]))
    ensures StreakFrom(h, today, ps, i, streak, lastDate) == streak
  {
  }

  /** The current streak of a log at time `now`: 0 for an empty log, and never
      more than its completed entries. */
  function CurrentStreak(h: Habit, now: Instant): (r: nat)
    ensures h.progress == [] ==> r == 0
    ensures r <= Count(h.progress, CompletedFor(h))
  {
    if |h.progress| == 0 then 0
    else
      var sorted := SortNewestFirst(h.progress);
      CountSorted(h.progress, CompletedFor(h));
      assert sorted[0..] == sorted;
      StreakFrom(h, StartOfDay(now), sorted, 0, 0, StartOfDay(now))
  }

  /** The last counted day when the walk that started at `i` with `lastDate`
      reaches index `j`: the day of the latest completed entry in
      `ps[i..j]`, or `lastDate` when there is none. */
  function LastCounted(h: Habit, ps: seq<ProgressEntry>, i: nat, j: nat, lastDate: Instant): Instant
    requires i <= j <= |ps|
    decreases j - i
  {
    if j == i then lastDate
    else if IsCompleted(h, ps[j - 1]) then StartOfDay(ps[j - 1].date)
    else LastCounted(h, ps, i, j - 1, lastDate)
  }

  /** `b` is where the walk from `i` stops: no entry in `ps[i..b]` meets the
      break condition against the day counted last before it, and the entry
      at `b`, if any, does. */
  predicate FirstBreak(h: Habit, today: Instant, ps: seq<ProgressEntry>, i: nat, lastDate: Instant, b: nat)
    requires i <= |ps|
  {
    && i <= b <= |ps|
    && (forall j :: i <= j < b ==> !Breaks(h, today, LastCounted(h, ps, i, j, lastDate), ps[j]))
    && (b < |ps| ==> Breaks(h, today, LastCounted(h, ps, i, b, lastDate), ps[b]))
  }

  /** Starting one entry later, with the day that entry leaves behind, gives
      the same last counted days. */
  lemma {:induction false} LastCountedShift(h: Habit, ps: seq<ProgressEntry>, i: nat, j: nat, lastDate: Instant)
    requires i < j <= |ps|
    ensures var next := if IsCompleted(h, ps[i]) then StartOfDay(ps[i].date) else lastDate;
      LastCounted(h, ps, i + 1, j, next) == LastCounted(h, ps, i, j, lastDate)
    decreases j - i
  {
    if j > i + 1 {
      LastCountedShift(h, ps, i, j - 1, lastDate);
    }
  }

  /** The streak the walk returns is the counter plus the completed entries it
      passes before it first meets the break condition. */
  lemma {:induction false} StreakFromCountsToBreak(h: Habit, today: Instant, ps: seq<ProgressEntry>, i: nat, streak: nat, lastDate: Instant)
    requires i <= |ps|
    ensures exists b: nat :: (FirstBreak(h, today, ps, i, lastDate, b)
      && StreakFrom(h, today, ps, i, streak, lastDate) == streak + Count(ps[i..b], CompletedFor(h)))
    decreases |ps| - i
  {
    if i == |ps| || Breaks(h, today, lastDate, ps[i]) {
      assert FirstBreak(h, today, ps, i, lastDate, i) && ps[i..i] == [];
    } else {
      var completed := IsCompleted(h, ps[i]);
      var next := if completed then StartOfDay(ps[i].date) else lastDate;
      var streak' := if completed then streak + 1 else streak;
      StreakFromCountsToBreak(h, today, ps, i + 1, streak', next);
      var b: nat :| FirstBreak(h, today, ps, i + 1, next, b)
        && StreakFrom(h, today, ps, i + 1, streak', next) == streak' + Count(ps[i + 1..b], CompletedFor(h));
      forall j | i < j <= b
        ensures LastCounted(h, ps, i + 1, j, next) == LastCounted(h, ps, i, j, lastDate)
      {
        LastCountedShift(h, ps, i, j, lastDate);
      }
      assert FirstBreak(h, today, ps, i, lastDate, b);
      assert ps[i..b][1..] == ps[i + 1..b];
    }
  }

  /** The current streak is the number of completed entries, newest first,
      before the first entry that breaks the streak: one before today that is
      not completed or is more than a day from the last counted day. */
  lemma CurrentStreakCountsToBreak(h: Habit, now: Instant)
    ensures exists b: nat :: (FirstBreak(h, StartOfDay(now), SortNewestFirst(h.progress), 0, StartOfDay(now), b)
      && CurrentStreak(h, now) == Count(SortNewestFirst(h.progress)[..b], CompletedFor(h)))
  {
    var sorted := SortNewestFirst(h.progress);
    var today := StartOfDay(now);
    if h.progress == [] {
      assert FirstBreak(h, today, sorted, 0, today, 0);
    } else {
      StreakFromCountsToBreak(h, today, sorted, 0, 0, today);
      var b: nat :| FirstBreak(h, today, sorted, 0, today, b)
        && StreakFrom(h, today, sorted, 0, 0, today) == Count(sorted[0..b], CompletedFor(h));
      assert sorted[0..b] == sorted[..b];
      assert FirstBreak(h, StartOfDay(now), sorted, 0, StartOfDay(now), b)
        && CurrentStreak(h, now) == Count(sorted[..b], CompletedFor(h));
    }
  }

  /** Entries of today or later never stop the walk: on a log made only of
      them the streak is the number of completed entries. */
  lemma {:induction false} NoBreakFromToday(h: Habit, today: Instant, ps: seq<ProgressEntry>, i: nat, streak: nat, lastDate: Instant)
    requires i <= |ps|
    requires forall j :: i <= j < |ps| ==> StartOfDay(ps[j].date) >= today
    ensures StreakFrom(h, today, ps, i, streak, lastDate) == streak + Count(ps[i..], CompletedFor(h))
    decreases |ps| - i
  {
    if i < |ps| {
      assert ps[i..] == [ps[i]] + ps[i + 1..];
      var next := if IsCompleted(h, ps[i]) then StartOfDay(ps[i].date) else lastDate;
      NoBreakFromToday(h, today, ps, i + 1, if IsCompleted(h, ps[i]) then streak + 1 else streak, next);
    }
  }

  /** A newest entry from before today that is not completed ends the streak at 0. */
  lemma MissedBeforeToday(h: Habit, now: Instant)
    requires h.progress != []
    requires var e := SortNewestFirst(h.progress)[0]; StartOfDay(e.date) < StartOfDay(now) && !IsCompleted(h, e)
    ensures CurrentStreak(h, now) == 0
  {
  }

  /** The fraction `completedDays / recentProgress.length`, shown times 100. */
  datatype Ratio = Ratio(part: nat, whole: nat)

  function ThirtyDaysAgo(now: Instant): Instant {
    now - 30 * DAY_MS
  }

  /** The panel's completion rule, restricted to entries dated in `w`. */
  function CompletedForWithin(h: Habit, w: Window): ProgressEntry -> bool {
    (e: ProgressEntry) => InWindow(w, e.date) && IsCompleted(h, e)
  }

  /** The 30-day rate: completed entries among those dated from 30 days ago
      on; 0 of 0 when there are none. */
  function ThirtyDayRate(h: Habit, now: Instant): (r: Ratio)
    ensures r.part <= r.whole
    ensures r.whole == Count(h.progress, DatedWithin(Window(ThirtyDaysAgo(now), None)))
    ensures r.part == Count(h.progress, CompletedForWithin(h, Window(ThirtyDaysAgo(now), None)))
  {
    var w := Window(ThirtyDaysAgo(now), None);
    CountImplies(h.progress, CompletedForWithin(h, w), DatedWithin(w));
    Ratio(Count(h.progress, CompletedForWithin(h, w)), Count(h.progress, DatedWithin(w)))
  }

  /** The `for` loop of `calculateStats()` with its early exit, over a log
      already sorted. */
  method StreakLoop(habit: Habit, today: Instant, sortedProgress: seq<ProgressEntry>) returns (currentStreak: nat)
    ensures currentStreak == StreakFrom(habit, today, sortedProgress, 0, 0, today)
  {
    currentStreak := 0;
    var lastDate := today;
    var i := 0;
    while i < |sortedProgress|
      invariant 0 <= i <= |sortedProgress|
      invariant StreakFrom(habit, today, sortedProgress, i, currentStreak, lastDate)
             == StreakFrom(habit, today, sortedProgress, 0, 0, today)
    {
      var progress := sortedProgress[i];
      var progressDate := StartOfDay(progress.date);
      var isCompleted := progress.completed || (habit.isQuantityBased && progress.quantityDone >= habit.quantity);
      assert isCompleted == IsCompleted(habit, progress);
      if progressDate < today && (Abs(lastDate - progressDate) > DAY_MS || !isCompleted) {
        StreakStops(habit, today, sortedProgress, i, currentStreak, lastDate);
        return;
      }
      StreakStep(habit, today, sortedProgress, i, currentStreak, lastDate);
      if isCompleted {
        currentStreak := currentStreak + 1;
        lastDate := progressDate;
      }
      i := i + 1;
    }
    StreakStops(habit, today, sortedProgress, i, currentStreak, lastDate);
  }

  /** `calculateStats()`: the streak loop over the sorted log, then the rate. */
  method CalculateStats(habit: Habit, now: Instant) returns (streak: nat, completionRate: Ratio)
    ensures streak == CurrentStreak(habit, now)
    ensures completionRate == ThirtyDayRate(habit, now)
    ensures completionRate.part <= completionRate.whole
  {
    if |habit.progress| == 0 {
      return 0, Ratio(0, 0);
    }
    var sortedProgress := SortNewestFirst(habit.progress);
    streak := StreakLoop(habit, StartOfDay(now), sortedProgress);
    completionRate := ThirtyDayRate(habit, now);
  }

  /** In a log sorted newest first, nothing after the first `n` entries is
      newer than any of them. */
  lemma TailNotNewer(sorted: seq<ProgressEntry>, n: nat)
    requires NewestFirst(sorted) && n <= |sorted|
    ensures forall e, i :: e in multiset(sorted[n..]) && 0 <= i < n ==> e.date <= sorted[i].date
  {
    forall e, i | e in multiset(sorted[n..]) && 0 <= i < n
      ensures e.date <= sorted[i].date
    {
      assert e in sorted[n..];
      var j :| 0 <= j < |sorted[n..]| && sorted[n..][j] == e;
      assert sorted[n + j] == e;
    }
  }

  /** A prefix of a newest-first log is newest first. */
  lemma PrefixNewest(s: seq<ProgressEntry>, n: nat)
    requires NewestFirst(s) && n <= |s|
    ensures NewestFirst(s[..n])
  {
    forall i, j | 0 <= i < j < n
      ensures s[..n][i].date >= s[..n][j].date
    {
    }
  }

  /** Cutting a sequence in two splits its multiset in two. */
  lemma SplitMultiset(s: seq<ProgressEntry>, n: nat)
    requires n <= |s|
    ensures multiset(s[..n]) <= multiset(s)
    ensures multiset(s) - multiset(s[..n]) == multiset(s[n..])
  {
    assert s == s[..n] + s[n..];
    assert multiset(s) == multiset(s[..n]) + multiset(s[n..]);
  }

  /** The first `n` entries of a newest-first log: newest first, taken from
      it, and no entry left out is newer than one of them. */
  lemma TopOfSorted(sorted: seq<ProgressEntry>, n: nat)
    requires NewestFirst(sorted) && n <= |sorted|
    ensures NewestFirst(sorted[..n])
    ensures multiset(sorted[..n]) <= multiset(sorted)
    ensures forall e, i :: e in multiset(sorted) - multiset(sorted[..n]) && 0 <= i < n ==> e.date <= sorted[..n][i].date
  {
    SplitMultiset(sorted, n);
    TailNotNewer(sorted, n);
    PrefixNewest(sorted, n);
  }

  /** Recent activities: the log newest first, at most seven entries. They are
      entries of the log, and no entry left out is newer than one shown. */
  function RecentActivity(progress: seq<ProgressEntry>): (r: seq<ProgressEntry>)
    ensures |r| == Min(7, |progress|)
    ensures NewestFirst(r)
    ensures multiset(r) <= multiset(progress)
    ensures forall e, i :: e in multiset(progress) - multiset(r) && 0 <= i < |r| ==> e.date <= r[i].date
  {
    var sorted := SortNewestFirst(progress);
    var n := Min(7, |sorted|);
    TopOfSorted(sorted, n);
    assert multiset(sorted) == multiset(progress);
    sorted[..n]
  }
}
