/**
 * The statistics page: `isHabitDueOnDate`, the `calculateStats` pass over
 * the user's habits (streaks, completions, today's rate, the current week,
 * the most consistent habit, the consistency score) and the colour band of a
 * day in the heatmap.
 */
module Statistics {
  import opened Wrappers
  import opened Dates
  import opened HabitModel
  import opened ProgressLog

  // ---- isHabitDueOnDate ----

  /** Due at instant `t`: not before the start timestamp (a missing start date
      is an invalid date, and comparing with it is false, so it does not gate),
      then the frequency switch on the weekday of `t`. */
  predicate DueOnDate(h: Habit, t: Instant) {
    !(h.startDate.Some? && h.startDate.value > t) && ScheduleAllows(h, WeekdayOf(DayOf(t)))
  }

  // ---- counting habits ----

  /** The number of habits satisfying `p` (`habits.filter(p).length`). */
  function CountHabits(hs: seq<Habit>, p: Habit -> bool): (n: nat)
    ensures n <= |hs|
  {
    if hs == [] then 0 else CountHabits(hs[..|hs| - 1], p) + (if p(hs[|hs| - 1]) then 1 else 0)
  }

  /** The count is the number of positions in the list whose habit satisfies `p`. */
  lemma {:induction false} CountHabitsIndices(hs: seq<Habit>, p: Habit -> bool)
    ensures CountHabits(hs, p) == |set i | 0 <= i < |hs| && p(hs[i])|
  {
    var all := set i | 0 <= i < |hs| && p(hs[i]);
    if hs == [] {
      assert all == {};
    } else {
      var init := hs[..|hs| - 1];
      CountHabitsIndices(init, p);
      var before := set i | 0 <= i < |init| && p(init[i]);
      if p(hs[|hs| - 1]) {
        assert all == before + {|hs| - 1};
      } else {
        assert all == before;
      }
    }
  }

  lemma {:induction false} CountHabitsImplies(hs: seq<Habit>, p: Habit -> bool, q: Habit -> bool)
    requires forall h :: p(h) ==> q(h)
    ensures CountHabits(hs, p) <= CountHabits(hs, q)
  {
    if hs != [] {
      CountHabitsImplies(hs[..|hs| - 1], p, q);
    }
  }

  function DueAt(t: Instant): Habit -> bool {
    (h: Habit) => DueOnDate(h, t)
  }

  /** Due at `t`, and the entry of that day is completed. */
  function DoneAt(t: Instant): Habit -> bool {
    (h: Habit) => DueOnDate(h, t) && CompletedOnDay(h.progress, DayOf(t))
  }

  function HasPriority(p: Priority): Habit -> bool {
    (h: Habit) => h.priority == p
  }

  // ---- the streak walk of one habit ----

  /** `habitCurrentStreak`, `habitMaxStreak`, `habitCompletions` and `lastCompletedDate`. */
  datatype HabitWalk = HabitWalk(current: nat, maxStreak: nat, completions: nat, lastCompleted: Option<Instant>)

  const WalkStart := HabitWalk(0, 0, 0, None)

  /** `Math.abs(differenceInDays(a, b))`: the whole days between two instants,
      the fraction dropped. */
  function DayDiff(a: Instant, b: Instant): (r: nat)
    ensures r * DAY_MS <= (if a >= b then a - b else b - a) < (r + 1) * DAY_MS
  {
    (if a >= b then a - b else b - a) / DAY_MS
  }

  /** One iteration over an entry: a completed entry extends the streak when it
      is exactly one whole day from the last completed one and restarts it at 1
      otherwise; an uncompleted entry resets it to 0. */
  function WalkStep(w: HabitWalk, e: ProgressEntry): HabitWalk {
    if e.completed then
      var current :=
        if w.lastCompleted.None? then 1
        else if DayDiff(e.date, w.lastCompleted.value) == 1 then w.current + 1
        else 1;
      HabitWalk(current, Max(w.maxStreak, current), w.completions + 1, Some(e.date))
    else
      HabitWalk(0, Max(w.maxStreak, 0), w.completions, w.lastCompleted)
  }

  /** The counters after the first `n` entries: neither streak exceeds the
      completions. */
  function Walk(ps: seq<ProgressEntry>, n: nat): (w: HabitWalk)
    requires n <= |ps|
    ensures w.current <= w.maxStreak <= w.completions
  {
    if n == 0 then WalkStart else WalkStep(Walk(ps, n - 1), ps[n - 1])
  }

  /** The walk's counters are the streak definitions: the current streak is
      the dated run ending at `n`, the maximum is the longest dated run so far,
      and the last completed date is that of the latest completed entry. */
  lemma {:induction false} WalkIsDatedRun(ps: seq<ProgressEntry>, n: nat)
    requires n <= |ps|
    ensures Walk(ps, n).current == DatedRun(ps, n, DayDiff)
    ensures Walk(ps, n).maxStreak == BestDatedRun(ps, n, DayDiff)
    ensures n > 0 && ps[n - 1].completed ==> Walk(ps, n).lastCompleted == Some(ps[n - 1].date)
  {
    if n > 0 {
      WalkIsDatedRun(ps, n - 1);
    }
  }

  /** What the walk computes, stated without the walk: the current streak is a
      block of completed entries, each one whole day before the entry after it,
      that cannot be extended further back; no streak ending earlier is longer
      than the maximum, and some streak attains it; both are bounded by the
      runs of completed entries regardless of dates. */
  lemma WalkWithinRuns(ps: seq<ProgressEntry>, n: nat)
    requires n <= |ps|
    ensures Walk(ps, n).current <= RunEndingAt(ps, n)
    ensures Walk(ps, n).maxStreak <= LongestRun(ps, n)
    ensures var k := Walk(ps, n).current;
      && (forall j :: n - k <= j < n ==> ps[j].completed)
      && (forall j :: n - k < j < n ==> DayDiff(ps[j].date, ps[j - 1].date) == 1)
      && (k == 0 <==> n == 0 || !ps[n - 1].completed)
      && (0 < k < n ==> !ps[n - 1 - k].completed || DayDiff(ps[n - k].date, ps[n - 1 - k].date) != 1)
    ensures forall m :: 0 <= m <= n ==> Walk(ps, m).current <= Walk(ps, n).maxStreak
    ensures exists m :: 0 <= m <= n && Walk(ps, m).current == Walk(ps, n).maxStreak
  {
    WalkIsDatedRun(ps, n);
    DatedRunIsRun(ps, n, DayDiff);
    BestDatedRunIsMax(ps, n, DayDiff);
    forall m | 0 <= m <= n
      ensures Walk(ps, m).current == DatedRun(ps, m, DayDiff)
    {
      WalkIsDatedRun(ps, m);
    }
  }

  /** `habitCompletions` counts exactly the completed entries. */
  lemma {:induction false} WalkCompletions(ps: seq<ProgressEntry>, n: nat)
    requires n <= |ps|
    ensures Walk(ps, n).completions == Count(ps[..n], CompletedFlag())
  {
    if n > 0 {
      WalkCompletions(ps, n - 1);
      assert ps[..n] == ps[..n - 1] + [ps[n - 1]];
      CountAppend(ps[..n - 1], [ps[n - 1]], CompletedFlag());
    }
  }

  /** The `sortedProgress.forEach` loop. */
  method WalkHabit(sorted: seq<ProgressEntry>) returns (habitCurrentStreak: nat, habitMaxStreak: nat, habitCompletions: nat)
    ensures var w := Walk(sorted, |sorted|);
      habitCurrentStreak == w.current && habitMaxStreak == w.maxStreak && habitCompletions == w.completions
  {
    habitCurrentStreak, habitMaxStreak, habitCompletions := 0, 0, 0;
    var lastCompletedDate: Option<Instant> := None;
    var i := 0;
    while i < |sorted|
      invariant 0 <= i <= |sorted|
      invariant HabitWalk(habitCurrentStreak, habitMaxStreak, habitCompletions, lastCompletedDate) == Walk(sorted, i)
    {
      var progress := sorted[i];
      if progress.completed {
        habitCompletions := habitCompletions + 1;
        if lastCompletedDate.None? {
          habitCurrentStreak := 1;
        } else {
          var dayDiff := DayDiff(progress.date, lastCompletedDate.value);
          if dayDiff == 1 {
            habitCurrentStreak := habitCurrentStreak + 1;
          } else {
            habitCurrentStreak := 1;
          }
        }
        lastCompletedDate := Some(progress.date);
      } else {
        habitCurrentStreak := 0;
      }
      habitMaxStreak := Max(habitMaxStreak, habitCurrentStreak);
      i := i + 1;
    }
  }

  /** The walk over a habit's log sorted newest first. */
  function WalkOf(h: Habit): (w: HabitWalk)
    ensures w.current <= w.maxStreak <= w.completions <= |h.progress|
    ensures var sorted := SortNewestFirst(h.progress);
      && w.current == DatedRun(sorted, |sorted|, DayDiff)
      && w.maxStreak == BestDatedRun(sorted, |sorted|, DayDiff)
      && w.completions == Count(h.progress, CompletedFlag())
  {
    var sorted := SortNewestFirst(h.progress);
    WalkCompletions(sorted, |sorted|);
    WalkIsDatedRun(sorted, |sorted|);
    CountSorted(h.progress, CompletedFlag());
    assert sorted[..|sorted|] == sorted;
    Walk(sorted, |sorted|)
  }

  // ---- aggregates over the habits ----

  /** `longestStreak`: the largest `habitMaxStreak`. */
  function LongestStreak(hs: seq<Habit>): (r: nat)
    ensures hs == [] ==> r == 0
  {
    if hs == [] then 0 else Max(LongestStreak(hs[..|hs| - 1]), WalkOf(hs[|hs| - 1]).maxStreak)
  }

  /** `currentStreak` (shown as the active streak): the largest value the
      counter has after a habit's loop, i.e. the run at its oldest entries. */
  function ActiveStreak(hs: seq<Habit>): (r: nat)
    ensures r <= LongestStreak(hs)
  {
    if hs == [] then 0 else Max(ActiveStreak(hs[..|hs| - 1]), WalkOf(hs[|hs| - 1]).current)
  }

  /** The longest streak bounds every habit's maximum run. */
  lemma {:induction false} LongestIsMaximum(hs: seq<Habit>)
    ensures forall i :: 0 <= i < |hs| ==> WalkOf(hs[i]).maxStreak <= LongestStreak(hs)
  {
    if hs != [] {
      var init := hs[..|hs| - 1];
      LongestIsMaximum(init);
      forall i | 0 <= i < |hs| - 1
        ensures WalkOf(hs[i]).maxStreak <= LongestStreak(hs)
      {
        assert hs[i] == init[i];
      }
    }
  }

  /** The active streak bounds every habit's final run. */
  lemma {:induction false} ActiveIsMaximum(hs: seq<Habit>)
    ensures forall i :: 0 <= i < |hs| ==> WalkOf(hs[i]).current <= ActiveStreak(hs)
  {
    if hs != [] {
      var init := hs[..|hs| - 1];
      ActiveIsMaximum(init);
      forall i | 0 <= i < |hs| - 1
        ensures WalkOf(hs[i]).current <= ActiveStreak(hs)
      {
        assert hs[i] == init[i];
      }
    }
  }

  /** Some habit reaches the longest streak. */
  lemma {:induction false} LongestAttained(hs: seq<Habit>)
    requires hs != []
    ensures exists i :: 0 <= i < |hs| && WalkOf(hs[i]).maxStreak == LongestStreak(hs)
  {
    var init := hs[..|hs| - 1];
    if init == [] || LongestStreak(init) <= WalkOf(hs[|hs| - 1]).maxStreak {
      assert WalkOf(hs[|hs| - 1]).maxStreak == LongestStreak(hs);
    } else {
      LongestAttained(init);
      var i :| 0 <= i < |init| && WalkOf(init[i]).maxStreak == LongestStreak(init);
      assert hs[i] == init[i];
    }
  }

  /** Some habit ends its loop with the active streak. */
  lemma {:induction false} ActiveAttained(hs: seq<Habit>)
    requires hs != []
    ensures exists i :: 0 <= i < |hs| && WalkOf(hs[i]).current == ActiveStreak(hs)
  {
    var init := hs[..|hs| - 1];
    if init == [] || ActiveStreak(init) <= WalkOf(hs[|hs| - 1]).current {
      assert WalkOf(hs[|hs| - 1]).current == ActiveStreak(hs);
    } else {
      ActiveAttained(init);
      var i :| 0 <= i < |init| && WalkOf(init[i]).current == ActiveStreak(init);
      assert hs[i] == init[i];
    }
  }

  /** Both are maxima over the habits: no habit's streak exceeds them, and
      either some habit reaches each or there are no habits and both are 0. */
  lemma StreaksAreMaxima(hs: seq<Habit>)
    ensures forall i :: 0 <= i < |hs| ==> WalkOf(hs[i]).maxStreak <= LongestStreak(hs)
    ensures forall i :: 0 <= i < |hs| ==> WalkOf(hs[i]).current <= ActiveStreak(hs)
    ensures (hs == [] && LongestStreak(hs) == 0) || exists i :: 0 <= i < |hs| && WalkOf(hs[i]).maxStreak == LongestStreak(hs)
    ensures (hs == [] && ActiveStreak(hs) == 0) || exists i :: 0 <= i < |hs| && WalkOf(hs[i]).current == ActiveStreak(hs)
  {
    LongestIsMaximum(hs);
    ActiveIsMaximum(hs);
    if hs != [] {
      LongestAttained(hs);
      ActiveAttained(hs);
    }
  }

  /** `allStreaks`: one `habitMaxStreak` per habit, in order. */
  function AllStreaks(hs: seq<Habit>): (r: seq<nat>)
    ensures |r| == |hs| && forall i :: 0 <= i < |hs| ==> r[i] == WalkOf(hs[i]).maxStreak
  {
    if hs == [] then []
    else
      var init := hs[..|hs| - 1];
      assert forall i :: 0 <= i < |init| ==> init[i] == hs[i];
      AllStreaks(init) + [WalkOf(hs[|hs| - 1]).maxStreak]
  }

  /** `totalCompletions`: the sum of `habitCompletions`. */
  function TotalCompletions(hs: seq<Habit>): (r: nat)
    ensures LongestStreak(hs) <= r
  {
    if hs == [] then 0 else TotalCompletions(hs[..|hs| - 1]) + WalkOf(hs[|hs| - 1]).completions
  }

  /** `totalPossibleCompletions`: the number of logged entries. */
  function TotalEntries(hs: seq<Habit>): (r: nat)
    ensures TotalCompletions(hs) <= r
  {
    if hs == [] then 0 else TotalEntries(hs[..|hs| - 1]) + |hs[|hs| - 1].progress|
  }

  // ---- the most consistent habit ----

  /** `mostConsistentHabit` with `bestCompletionRate` as the fraction
      `completions / entries`; it starts as the empty name at rate 0. */
  datatype Leader = Leader(name: string, completions: nat, entries: nat)

  const NoLeader := Leader("", 0, 1)

  /** `habitCompletions / sortedProgress.length > bestCompletionRate && habit.name`.
      With no entries the rate is `NaN` and the comparison is false. */
  predicate Beats(h: Habit, best: Leader)
    requires best.entries > 0
  {
    |h.progress| > 0 && WalkOf(h).completions * best.entries > best.completions * |h.progress| && h.name != []
  }

  function Consistency(hs: seq<Habit>): (r: Leader)
    ensures r.entries > 0 && r.completions <= r.entries
    ensures r.name == [] || exists i :: 0 <= i < |hs| && hs[i].name == r.name
  {
    if hs == [] then NoLeader
    else
      var best := Consistency(hs[..|hs| - 1]);
      var h := hs[|hs| - 1];
      if Beats(h, best) then Leader(h.name, WalkOf(h).completions, |h.progress|)
      else
        assert best.name == [] || exists i :: 0 <= i < |hs| && hs[i].name == best.name by {
          if best.name != [] {
            var i :| 0 <= i < |hs| - 1 && hs[..|hs| - 1][i].name == best.name;
            assert hs[i].name == best.name;
          }
        }
        best
  }

  lemma MulLeft(k: nat, a: int, b: int)
    requires a <= b
    ensures k * a <= k * b
  {
  }

  lemma MulCancel(k: nat, a: int, b: int)
    requires k > 0 && k * a <= k * b
    ensures a <= b
  {
    assert k * (b + 1) == k * b + k;
    MulCancelLess(k, a, b + 1);
  }

  /** `a/b <= c/d` and `c/d < e/f` give `a/b <= e/f`. */
  lemma FractionTrans(a: nat, b: nat, c: nat, d: nat, e: nat, f: nat)
    requires b > 0 && d > 0 && f > 0
    requires a * d <= c * b && c * f < e * d
    ensures a * f <= e * b
  {
    MulLeft(f, a * d, c * b);
    MulLeft(b, c * f, e * d);
    assert (a * f) * d <= (e * b) * d by {
      assert f * (a * d) == (a * f) * d;
      assert f * (c * b) == b * (c * f);
      assert b * (e * d) == (e * b) * d;
    }
    MulCancel(d, a * f, e * b);
  }

  /** No named habit with entries has a better rate than the leader. */
  lemma {:induction false} ConsistencyIsBest(hs: seq<Habit>)
    ensures var r := Consistency(hs);
      forall i :: 0 <= i < |hs| && hs[i].name != [] && |hs[i].progress| > 0 ==>
        WalkOf(hs[i]).completions * r.entries <= r.completions * |hs[i].progress|
  {
    if hs != [] {
      var init := hs[..|hs| - 1];
      var best := Consistency(init);
      var h := hs[|hs| - 1];
      var r := Consistency(hs);
      ConsistencyIsBest(init);
      forall i | 0 <= i < |hs| && hs[i].name != [] && |hs[i].progress| > 0
        ensures WalkOf(hs[i]).completions * r.entries <= r.completions * |hs[i].progress|
      {
        if i < |hs| - 1 {
          assert hs[i] == init[i];
          if Beats(h, best) {
            FractionTrans(WalkOf(hs[i]).completions, |hs[i].progress|, best.completions, best.entries,
                          WalkOf(h).completions, |h.progress|);
          }
        }
      }
    }
  }

  // ---- the current week ----

  /** `{ date, completed, total }` for one day of the week. */
  datatype DayTally = DayTally(day: int, completed: nat, total: nat)

  /** The habits due at midnight of day `d`, and those of them whose entry of
      day `d` is completed. */
  function TallyOn(hs: seq<Habit>, d: int): (r: DayTally)
    ensures r.day == d && r.completed <= r.total
    ensures r.total == CountHabits(hs, DueAt(Midnight(d)))
  {
    CountHabitsImplies(hs, DoneAt(Midnight(d)), DueAt(Midnight(d)));
    MidnightDay(d);
    DayTally(d, CountHabits(hs, DoneAt(Midnight(d))), CountHabits(hs, DueAt(Midnight(d))))
  }

  /** `weeklyData`: one tally per day from the Sunday to the Saturday of the
      week of `now`. */
  function WeeklyData(hs: seq<Habit>, now: Instant): (r: seq<DayTally>)
    ensures |r| == 7
    ensures WeekdayOf(r[0].day) == Sun && WeekdayOf(r[6].day) == Sat
    ensures r[0].day <= DayOf(now) <= r[6].day
    ensures forall i :: 0 <= i < 7 ==> r[i] == TallyOn(hs, StartOfWeek(DayOf(now)) + i) && r[i].completed <= r[i].total
  {
    var days := DaysBetween(StartOfWeek(DayOf(now)), EndOfWeek(DayOf(now)));
    seq(7, i requires 0 <= i < 7 => TallyOn(hs, days[i]))
  }

  // ---- the heatmap ----

  /** The colour of a heatmap day as written: the rate `completed / total * 100`
      (0 without data) against the bands. With `total == 0` the rate is `NaN`,
      every comparison with it is false, and the day falls in the top band. */
  function HeatmapColor(data: Option<DayTally>): (c: string)
    ensures data.Some? && data.value.total == 0 ==> c == "bg-green-600"
    ensures data.Some? && data.value.total > 0 && 100 * data.value.completed >= 90 * data.value.total ==> c == "bg-green-600"
  {
    if data.None? then "bg-gray-100"
    else
      var t := data.value;
      if t.total == 0 then "bg-green-600"
      else if t.completed == 0 then "bg-gray-100"
      else if 100 * t.completed < 30 * t.total then "bg-green-100"
      else if 100 * t.completed < 60 * t.total then "bg-green-300"
      else if 100 * t.completed < 90 * t.total then "bg-green-500"
      else "bg-green-600"
  }

  /** A day with nothing due is shown as fully completed. */
  lemma HeatmapEmptyDayIsTopBand()
    ensures HeatmapColor(Some(DayTally(0, 0, 0))) == "bg-green-600"
    ensures HeatmapColorCorrected(Some(DayTally(0, 0, 0))) == "bg-gray-100"
  {
  }

  /** The rate band: 0 for no completion, then one step per threshold. */
  function Band(completed: nat, total: nat): (b: nat)
    requires total > 0
    ensures b <= 4 && (b == 0 <==> completed == 0)
  {
    if completed == 0 then 0
    else if 100 * completed < 30 * total then 1
    else if 100 * completed < 60 * total then 2
    else if 100 * completed < 90 * total then 3
    else 4
  }

  /** The band never drops when more of the same day's habits are completed. */
  lemma BandMonotone(c1: nat, c2: nat, total: nat)
    requires total > 0 && c1 <= c2
    ensures Band(c1, total) <= Band(c2, total)
  {
  }

  /** The colour with a day of nothing due treated as rate 0. */
  function HeatmapColorCorrected(data: Option<DayTally>): (c: string)
    ensures c == "bg-gray-100" <==> data.None? || data.value.total == 0 || data.value.completed == 0
    ensures data.Some? && data.value.total > 0 ==>
      c == ["bg-gray-100", "bg-green-100", "bg-green-300", "bg-green-500", "bg-green-600"][Band(data.value.completed, data.value.total)]
  {
    if data.None? || data.value.total == 0 then "bg-gray-100"
    else ["bg-gray-100", "bg-green-100", "bg-green-300", "bg-green-500", "bg-green-600"][Band(data.value.completed, data.value.total)]
  }

  /** Outside the day with nothing due, the colour as written is the corrected
      one: the two differ only at `total == 0`. */
  lemma HeatmapColorAgreesWithData(data: Option<DayTally>)
    requires data.None? || data.value.total > 0
    ensures HeatmapColor(data) == HeatmapColorCorrected(data)
  {
  }

  // ---- calculateStats ----

  datatype PriorityTally = PriorityTally(high: nat, medium: nat, low: nat)

  datatype Stats = Stats(
    totalHabits: nat,
    activeStreak: nat,
    completionRate: nat,
    consistencyScore: nat,
    habitsByPriority: PriorityTally,
    weeklyData: seq<DayTally>,
    longestStreak: nat,
    mostConsistentHabit: string,
    totalCompletions: nat,
    streaks: seq<nat>)

  /** `s.slice(-n)`: the last `n` elements, or all of them. */
  function LastN(s: seq<nat>, n: nat): (r: seq<nat>)
    ensures |r| == if |s| <= n then |s| else n
    ensures r == s[|s| - |r|..]
  {
    if |s| <= n then s else s[|s| - n..]
  }

  lemma {:induction false} PrioritySum(hs: seq<Habit>)
    ensures CountHabits(hs, HasPriority(High)) + CountHabits(hs, HasPriority(Medium))
          + CountHabits(hs, HasPriority(Low)) == |hs|
  {
    if hs != [] {
      PrioritySum(hs[..|hs| - 1]);
    }
  }

  /** `habits.forEach(habit => habitsByPriority[habit.priority]++)`. */
  method CountByPriority(habits: seq<Habit>) returns (r: PriorityTally)
    ensures r.high == CountHabits(habits, HasPriority(High))
    ensures r.medium == CountHabits(habits, HasPriority(Medium))
    ensures r.low == CountHabits(habits, HasPriority(Low))
    ensures r.high + r.medium + r.low == |habits|
  {
    var high, medium, low := 0, 0, 0;
    var k := 0;
    while k < |habits|
      invariant 0 <= k <= |habits|
      invariant high == CountHabits(habits[..k], HasPriority(High))
      invariant medium == CountHabits(habits[..k], HasPriority(Medium))
      invariant low == CountHabits(habits[..k], HasPriority(Low))
    {
      assert habits[..k + 1][..k] == habits[..k];
      match habits[k].priority {
        case High => high := high + 1;
        case Medium => medium := medium + 1;
        case Low => low := low + 1;
      }
      k := k + 1;
    }
    assert habits[..k] == habits;
    PrioritySum(habits);
    r := PriorityTally(high, medium, low);
  }

  /** One more habit in the count. */
  lemma CountHabitsStep(hs: seq<Habit>, k: nat, p: Habit -> bool)
    requires k < |hs|
    ensures CountHabits(hs[..k + 1], p) == CountHabits(hs[..k], p) + if p(hs[k]) then 1 else 0
  {
    assert hs[..k + 1][..k] == hs[..k];
  }

  /** One more habit in the sums and maxima of the walks. */
  lemma WalkAggregatesStep(hs: seq<Habit>, k: nat)
    requires k < |hs|
    ensures TotalCompletions(hs[..k + 1]) == TotalCompletions(hs[..k]) + WalkOf(hs[k]).completions
    ensures LongestStreak(hs[..k + 1]) == Max(LongestStreak(hs[..k]), WalkOf(hs[k]).maxStreak)
    ensures ActiveStreak(hs[..k + 1]) == Max(ActiveStreak(hs[..k]), WalkOf(hs[k]).current)
    ensures AllStreaks(hs[..k + 1]) == AllStreaks(hs[..k]) + [WalkOf(hs[k]).maxStreak]
  {
    var pre := hs[..k + 1];
    assert pre[..|pre| - 1] == hs[..k] && pre[|pre| - 1] == hs[k];
  }

  /** One more habit in the race for the most consistent. */
  lemma ConsistencyStep(hs: seq<Habit>, k: nat)
    requires k < |hs|
    ensures var best := Consistency(hs[..k]);
      Consistency(hs[..k + 1]) == if Beats(hs[k], best) then Leader(hs[k].name, WalkOf(hs[k]).completions, |hs[k].progress|) else best
  {
    assert hs[..k + 1][..k] == hs[..k];
  }

  /** The body of the `habits.forEach` loop of `calculateStats` for one habit:
      its walk is added to the totals, and it is counted for today and
      weighed for consistency. */
  method VisitHabit(habit: Habit, now: Instant, totalCompletions0: nat, completedToday0: nat, dueToday0: nat,
                    longestStreak0: nat, currentStreak0: nat, best0: Leader, allStreaks0: seq<nat>)
    returns (totalCompletions: nat, completedToday: nat, dueToday: nat, longestStreak: nat,
             currentStreak: nat, best: Leader, allStreaks: seq<nat>)
    requires best0.entries > 0
    ensures totalCompletions == totalCompletions0 + WalkOf(habit).completions
    ensures longestStreak == Max(longestStreak0, WalkOf(habit).maxStreak)
    ensures currentStreak == Max(currentStreak0, WalkOf(habit).current)
    ensures allStreaks == allStreaks0 + [WalkOf(habit).maxStreak]
    ensures dueToday == dueToday0 + if DueAt(now)(habit) then 1 else 0
    ensures completedToday == completedToday0 + if DoneAt(now)(habit) then 1 else 0
    ensures best == if Beats(habit, best0) then Leader(habit.name, WalkOf(habit).completions, |habit.progress|) else best0
  {
    totalCompletions, completedToday, dueToday, longestStreak, currentStreak, best, allStreaks :=
      totalCompletions0, completedToday0, dueToday0, longestStreak0, currentStreak0, best0, allStreaks0;
    var sortedProgress := SortNewestFirst(habit.progress);
    var habitCurrentStreak, habitMaxStreak, habitCompletions := WalkHabit(sortedProgress);
    totalCompletions := totalCompletions + habitCompletions;
    longestStreak := Max(longestStreak, habitMaxStreak);
    allStreaks := allStreaks + [habitMaxStreak];
    if DueOnDate(habit, now) {
      dueToday := dueToday + 1;
      if CompletedOnDay(habit.progress, DayOf(now)) {
        completedToday := completedToday + 1;
      }
    }
    if Beats(habit, best) {
      best := Leader(habit.name, habitCompletions, |sortedProgress|);
    }
    if habitCurrentStreak > currentStreak {
      currentStreak := habitCurrentStreak;
    }
  }

  /** The `habits.forEach` loop of `calculateStats`: the running totals,
      maxima, streak list, counts for today and consistency leader. */
  method HabitsLoop(habits: seq<Habit>, now: Instant)
    returns (totalCompletions: nat, completedToday: nat, dueToday: nat, longestStreak: nat,
             currentStreak: nat, best: Leader, allStreaks: seq<nat>)
    ensures totalCompletions == TotalCompletions(habits)
    ensures longestStreak == LongestStreak(habits)
    ensures currentStreak == ActiveStreak(habits)
    ensures allStreaks == AllStreaks(habits)
    ensures dueToday == CountHabits(habits, DueAt(now))
    ensures completedToday == CountHabits(habits, DoneAt(now))
    ensures best == Consistency(habits)
  {
    totalCompletions, completedToday, dueToday := 0, 0, 0;
    longestStreak, currentStreak := 0, 0;
    best := NoLeader;
    allStreaks := [];
    var k := 0;
    while k < |habits|
      invariant 0 <= k <= |habits|
      invariant totalCompletions == TotalCompletions(habits[..k])
      invariant longestStreak == LongestStreak(habits[..k])
      invariant currentStreak == ActiveStreak(habits[..k])
      invariant allStreaks == AllStreaks(habits[..k])
      invariant dueToday == CountHabits(habits[..k], DueAt(now))
      invariant completedToday == CountHabits(habits[..k], DoneAt(now))
      invariant best == Consistency(habits[..k])
    {
      var habit := habits[k];
      CountHabitsStep(habits, k, DueAt(now));
      CountHabitsStep(habits, k, DoneAt(now));
      ConsistencyStep(habits, k);
      WalkAggregatesStep(habits, k);
      totalCompletions, completedToday, dueToday, longestStreak, currentStreak, best, allStreaks :=
        VisitHabit(habit, now, totalCompletions, completedToday, dueToday, longestStreak, currentStreak, best, allStreaks);
      k := k + 1;
    }
    assert habits[..k] == habits;
  }

  /** `calculateStats(habits)` at time `now`. */
  method CalculateStats(habits: seq<Habit>, now: Instant) returns (st: Stats)
    ensures st.totalHabits == |habits|
    ensures st.habitsByPriority.high + st.habitsByPriority.medium + st.habitsByPriority.low == |habits|
    ensures st.habitsByPriority == PriorityTally(CountHabits(habits, HasPriority(High)),
      CountHabits(habits, HasPriority(Medium)), CountHabits(habits, HasPriority(Low)))
    ensures st.totalCompletions == TotalCompletions(habits)
    ensures st.longestStreak == LongestStreak(habits)
    ensures st.activeStreak == ActiveStreak(habits)
    ensures st.activeStreak <= st.longestStreak <= st.totalCompletions
    ensures st.streaks == LastN(AllStreaks(habits), 15) && |st.streaks| <= 15
    ensures st.completionRate == (if CountHabits(habits, DueAt(now)) > 0
                                  then RoundPercent(CountHabits(habits, DoneAt(now)), CountHabits(habits, DueAt(now)))
                                  else 0)
    ensures st.completionRate <= 100
    ensures st.consistencyScore == RoundPercent(TotalCompletions(habits), TotalEntries(habits)) <= 100
    ensures st.weeklyData == WeeklyData(habits, now)
    ensures st.mostConsistentHabit == if Consistency(habits).name == [] then "No habits yet" else Consistency(habits).name
  {
    var byPriority := CountByPriority(habits);
    var totalCompletions, completedToday, dueToday, longestStreak, currentStreak, best, allStreaks :=
      HabitsLoop(habits, now);
    TotalCompletionsBound(habits);
    CountHabitsImplies(habits, DoneAt(now), DueAt(now));
    var weeklyData := WeeklyData(habits, now);
    var totalPossibleCompletions := TotalEntries(habits);
    var consistencyScore := RoundPercent(totalCompletions, totalPossibleCompletions);
    st := Stats(
      totalHabits := |habits|,
      activeStreak := currentStreak,
      completionRate := if dueToday > 0 then RoundPercent(completedToday, dueToday) else 0,
      consistencyScore := consistencyScore,
      habitsByPriority := byPriority,
      weeklyData := weeklyData,
      longestStreak := longestStreak,
      mostConsistentHabit := if best.name == [] then "No habits yet" else best.name,
      totalCompletions := totalCompletions,
      streaks := LastN(allStreaks, 15));
  }

  lemma TotalCompletionsBound(hs: seq<Habit>)
    ensures ActiveStreak(hs) <= LongestStreak(hs) <= TotalCompletions(hs) <= TotalEntries(hs)
  {
  }
}
