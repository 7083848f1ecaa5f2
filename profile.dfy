/**
 * The profile page: `isHabitDueToday`, `calculateHabitStreak`, the today and
 * streak figures of `fetchUserStats`, the "Today's Progress" text and the
 * validation of the edit-profile form.
 */
module Profile {
  import opened Wrappers
  import opened Text
  import opened Dates
  import opened HabitModel
  import opened ProgressLog
  import opened Statistics

  // ---- isHabitDueToday ----

  /** Due at `now`: a missing start date or one after `now` says no, then the
      frequency switch on the weekday of `now`. */
  predicate DueToday(h: Habit, now: Instant) {
    h.startDate.Some? && !(h.startDate.value > now) && ScheduleAllows(h, WeekdayOf(DayOf(now)))
  }

  function ProfileDueAt(now: Instant): Habit -> bool {
    (h: Habit) => DueToday(h, now)
  }

  /** Due today, and the entry whose date string starts with today's UTC date
      is completed. */
  function ProfileDoneAt(now: Instant): Habit -> bool {
    (h: Habit) => DueToday(h, now) && CompletedOnDay(h.progress, DayOf(now))
  }

  // ---- calculateHabitStreak ----

  /** `Math.round((a - b) / DAY)`: the nearest whole number of days, halves
      rounded up. */
  function RoundDays(diff: int): (r: int)
    ensures 2 * r * DAY_MS <= 2 * diff + DAY_MS < 2 * r * DAY_MS + 2 * DAY_MS
  {
    (2 * diff + DAY_MS) / (2 * DAY_MS)
  }

  /** `Math.abs(Math.round((a - b) / DAY))`. */
  function RoundedDayDiff(a: Instant, b: Instant): nat {
    var r := RoundDays(a - b);
    if r < 0 then -r else r
  }

  /** `currentStreak`, `maxStreak` and `lastDate`. */
  datatype StreakWalk = StreakWalk(current: nat, maxStreak: nat, lastDate: Option<Instant>)

  /** One iteration: like the statistics walk, but the day difference is
      rounded rather than truncated, and the maximum is updated only on a
      completed entry. */
  function StreakStep(w: StreakWalk, e: ProgressEntry): StreakWalk {
    if e.completed then
      var current :=
        if w.lastDate.None? then 1
        else if RoundedDayDiff(e.date, w.lastDate.value) == 1 then w.current + 1
        else 1;
      StreakWalk(current, Max(w.maxStreak, current), Some(e.date))
    else
      w.(current := 0)
  }

  /** The counters after the first `n` entries; the maximum never exceeds the
      number of completed entries among them. */
  function StreakWalkPrefix(ps: seq<ProgressEntry>, n: nat): (w: StreakWalk)
    requires n <= |ps|
    ensures w.current <= w.maxStreak <= Count(ps[..n], CompletedFlag())
  {
    if n == 0 then StreakWalk(0, 0, None)
    else
      assert ps[..n] == ps[..n - 1] + [ps[n - 1]];
      CountAppend(ps[..n - 1], [ps[n - 1]], CompletedFlag());
      StreakStep(StreakWalkPrefix(ps, n - 1), ps[n - 1])
  }

  /** The counters are the streak definitions under the rounded day
      difference: the current streak is the dated run ending at `n`, the
      maximum the longest dated run so far, and the last date that of the
      latest completed entry. */
  lemma {:induction false} StreakWalkIsDatedRun(ps: seq<ProgressEntry>, n: nat)
    requires n <= |ps|
    ensures StreakWalkPrefix(ps, n).current == DatedRun(ps, n, RoundedDayDiff)
    ensures StreakWalkPrefix(ps, n).maxStreak == BestDatedRun(ps, n, RoundedDayDiff)
    ensures n > 0 && ps[n - 1].completed ==> StreakWalkPrefix(ps, n).lastDate == Some(ps[n - 1].date)
  {
    if n > 0 {
      StreakWalkIsDatedRun(ps, n - 1);
    }
  }

  /** The streak `calculateHabitStreak` returns for a log: the longest dated
      run of the log sorted newest first. */
  function HabitStreak(progress: seq<ProgressEntry>): (r: nat)
    ensures progress == [] ==> r == 0
    ensures r <= Count(progress, CompletedFlag())
    ensures r == BestDatedRun(SortNewestFirst(progress), |progress|, RoundedDayDiff)
  {
    if |progress| == 0 then 0
    else
      var sorted := SortNewestFirst(progress);
      assert sorted[..|sorted|] == sorted;
      CountSorted(progress, CompletedFlag());
      StreakWalkIsDatedRun(sorted, |sorted|);
      StreakWalkPrefix(sorted, |sorted|).maxStreak
  }

  /** The habit streak is the length of some block of completed entries, each
      one rounded day before the entry after it, that cannot be extended
      further back, and no such block ending anywhere is longer. */
  lemma HabitStreakIsLongestRun(progress: seq<ProgressEntry>)
    ensures var sorted := SortNewestFirst(progress);
      forall m :: 0 <= m <= |sorted| ==> DatedRun(sorted, m, RoundedDayDiff) <= HabitStreak(progress)
    ensures var sorted := SortNewestFirst(progress);
      exists m :: (0 <= m <= |sorted| && DatedRun(sorted, m, RoundedDayDiff) == HabitStreak(progress)
        && (forall j :: m - HabitStreak(progress) <= j < m ==> sorted[j].completed)
        && (forall j :: m - HabitStreak(progress) < j < m ==> RoundedDayDiff(sorted[j].date, sorted[j - 1].date) == 1))
  {
    var sorted := SortNewestFirst(progress);
    BestDatedRunIsMax(sorted, |sorted|, RoundedDayDiff);
    var m :| 0 <= m <= |sorted| && DatedRun(sorted, m, RoundedDayDiff) == HabitStreak(progress);
    DatedRunIsRun(sorted, m, RoundedDayDiff);
  }

  method CalculateHabitStreak(habit: Habit) returns (r: nat)
    ensures r == HabitStreak(habit.progress)
  {
    if |habit.progress| == 0 {
      return 0;
    }
    var sortedProgress := SortNewestFirst(habit.progress);
    var currentStreak, maxStreak := 0, 0;
    var lastDate: Option<Instant> := None;
    var i := 0;
    while i < |sortedProgress|
      invariant 0 <= i <= |sortedProgress|
      invariant StreakWalk(currentStreak, maxStreak, lastDate) == StreakWalkPrefix(sortedProgress, i)
    {
      var progress := sortedProgress[i];
      if progress.completed {
        if lastDate.None? {
          currentStreak := 1;
        } else {
          var dayDiff := RoundedDayDiff(progress.date, lastDate.value);
          if dayDiff == 1 {
            currentStreak := currentStreak + 1;
          } else {
            currentStreak := 1;
          }
        }
        maxStreak := Max(maxStreak, currentStreak);
        lastDate := Some(progress.date);
      } else {
        currentStreak := 0;
      }
      i := i + 1;
    }
    r := maxStreak;
  }

  // ---- agreement with the statistics walk ----

  /** When two instants are a whole number of days apart, truncating and
      rounding the day difference agree. */
  lemma DayDiffsAgree(a: Instant, b: Instant, k: int)
    requires a - b == k * DAY_MS
    ensures DayDiff(a, b) == RoundedDayDiff(a, b)
  {
    assert 2 * (a - b) + DAY_MS == (2 * DAY_MS) * k + DAY_MS;
    assert RoundDays(a - b) == k;
    if k >= 0 {
      assert DayDiff(a, b) == k;
    } else {
      assert b - a == (-k) * DAY_MS;
      assert DayDiff(a, b) == -k;
    }
  }

  /** Every entry is logged at the same time of day `r`. */
  predicate SameTimeOfDay(ps: seq<ProgressEntry>, r: int) {
    forall i :: 0 <= i < |ps| ==> ps[i].date % DAY_MS == r
  }

  lemma SameRemainder(a: Instant, b: Instant)
    requires a % DAY_MS == b % DAY_MS
    ensures a - b == (a / DAY_MS - b / DAY_MS) * DAY_MS
  {
  }

  /** On entries all logged at one time of day, the two walks keep the same
      current streak, maximum and last completed date. */
  lemma {:induction false} WalksAgree(ps: seq<ProgressEntry>, n: nat, r: int)
    requires n <= |ps| && SameTimeOfDay(ps, r)
    ensures var w := Walk(ps, n); var v := StreakWalkPrefix(ps, n);
      && w.current == v.current && w.maxStreak == v.maxStreak && w.lastCompleted == v.lastDate
      && (w.lastCompleted.Some? ==> w.lastCompleted.value % DAY_MS == r)
  {
    if n > 0 {
      WalksAgree(ps, n - 1, r);
      var w := Walk(ps, n - 1);
      var e := ps[n - 1];
      if e.completed && w.lastCompleted.Some? {
        SameRemainder(e.date, w.lastCompleted.value);
        DayDiffsAgree(e.date, w.lastCompleted.value, e.date / DAY_MS - w.lastCompleted.value / DAY_MS);
      }
    }
  }

  /** For a log whose entries share one time of day (all at midnight, say),
      the profile streak is the statistics page's `habitMaxStreak`. */
  lemma StreaksAgree(h: Habit, r: int)
    requires SameTimeOfDay(h.progress, r)
    ensures HabitStreak(h.progress) == WalkOf(h).maxStreak
  {
    var sorted := SortNewestFirst(h.progress);
    forall i | 0 <= i < |sorted|
      ensures sorted[i].date % DAY_MS == r
    {
      assert sorted[i] in multiset(h.progress);
    }
    WalksAgree(sorted, |sorted|, r);
  }

  /** The two day differences, taken as the walks take them (the older entry
      first): 18 hours apart the profile rounds to 1 day and the statistics page
      truncates to 0, and 42 hours apart they give 2 and 1; half a day apart
      both give 0. So two completed entries 18 hours apart form a streak of 2
      on the profile and of 1 on the statistics page. */
  lemma DayDiffsDiffer()
    ensures RoundedDayDiff(0, 3 * DAY_MS / 4) == 1 && DayDiff(0, 3 * DAY_MS / 4) == 0
    ensures RoundedDayDiff(0, 7 * DAY_MS / 4) == 2 && DayDiff(0, 7 * DAY_MS / 4) == 1
    ensures RoundedDayDiff(0, DAY_MS / 2) == 0 && DayDiff(0, DAY_MS / 2) == 0
    ensures var ps := [ProgressEntry(3 * DAY_MS / 4, true, 1), ProgressEntry(0, true, 1)];
      BestDatedRun(ps, 2, RoundedDayDiff) == 2 && BestDatedRun(ps, 2, DayDiff) == 1
  {
    var ps := [ProgressEntry(3 * DAY_MS / 4, true, 1), ProgressEntry(0, true, 1)];
    assert RoundedDayDiff(ps[1].date, ps[0].date) == 1;
    assert DatedRun(ps, 1, RoundedDayDiff) == 1 && DatedRun(ps, 2, RoundedDayDiff) == 2;
    assert DayDiff(ps[1].date, ps[0].date) == 0;
    assert DatedRun(ps, 1, DayDiff) == 1 && DatedRun(ps, 2, DayDiff) == 1;
  }

  // ---- fetchUserStats ----

  /** The largest `calculateHabitStreak` over the habits, 0 without habits. */
  function MaxHabitStreak(hs: seq<Habit>): nat {
    if hs == [] then 0 else Max(MaxHabitStreak(hs[..|hs| - 1]), HabitStreak(hs[|hs| - 1].progress))
  }

  /** No habit's streak exceeds the maximum. */
  lemma {:induction false} MaxHabitStreakBound(hs: seq<Habit>)
    ensures forall i :: 0 <= i < |hs| ==> HabitStreak(hs[i].progress) <= MaxHabitStreak(hs)
  {
    if hs != [] {
      var init := hs[..|hs| - 1];
      MaxHabitStreakBound(init);
      forall i | 0 <= i < |hs| - 1
        ensures HabitStreak(hs[i].progress) <= MaxHabitStreak(hs)
      {
        assert hs[i] == init[i];
      }
    }
  }

  /** Some habit's streak is the maximum. */
  lemma {:induction false} MaxHabitStreakAttained(hs: seq<Habit>)
    requires hs != []
    ensures exists i :: 0 <= i < |hs| && HabitStreak(hs[i].progress) == MaxHabitStreak(hs)
  {
    var init := hs[..|hs| - 1];
    var last := |hs| - 1;
    if init != [] && MaxHabitStreak(init) >= HabitStreak(hs[last].progress) {
      MaxHabitStreakAttained(init);
      var i :| 0 <= i < |init| && HabitStreak(init[i].progress) == MaxHabitStreak(init);
      assert hs[i] == init[i];
    } else {
      assert HabitStreak(hs[last].progress) == MaxHabitStreak(hs);
    }
  }

  /** The maximum bounds every habit's streak and is one of them. */
  lemma MaxHabitStreakIsMax(hs: seq<Habit>)
    ensures forall i :: 0 <= i < |hs| ==> HabitStreak(hs[i].progress) <= MaxHabitStreak(hs)
    ensures hs != [] ==> exists i :: 0 <= i < |hs| && HabitStreak(hs[i].progress) == MaxHabitStreak(hs)
  {
    MaxHabitStreakBound(hs);
    if hs != [] {
      MaxHabitStreakAttained(hs);
    }
  }

  datatype ProfileStats = ProfileStats(totalHabits: nat, completedToday: nat, dueToday: nat, streakCount: nat)

  /** The counting loop of `fetchUserStats` over the fetched habits at `now`. */
  method FetchUserStats(habits: seq<Habit>, now: Instant) returns (st: ProfileStats)
    ensures st.totalHabits == |habits|
    ensures st.dueToday == CountHabits(habits, ProfileDueAt(now))
    ensures st.completedToday == CountHabits(habits, ProfileDoneAt(now))
    ensures st.completedToday <= st.dueToday
    ensures st.streakCount == MaxHabitStreak(habits)
  {
    var completedToday, dueToday, maxStreak := 0, 0, 0;
    var k := 0;
    while k < |habits|
      invariant 0 <= k <= |habits|
      invariant dueToday == CountHabits(habits[..k], ProfileDueAt(now))
      invariant completedToday == CountHabits(habits[..k], ProfileDoneAt(now))
      invariant maxStreak == MaxHabitStreak(habits[..k])
    {
      var habit := habits[k];
      assert habits[..k + 1][..k] == habits[..k] && habits[..k + 1][k] == habit;
      assert CountHabits(habits[..k + 1], ProfileDueAt(now))
          == dueToday + if DueToday(habit, now) then 1 else 0;
      assert CountHabits(habits[..k + 1], ProfileDoneAt(now))
          == completedToday + if DueToday(habit, now) && CompletedOnDay(habit.progress, DayOf(now)) then 1 else 0;
      if DueToday(habit, now) {
        dueToday := dueToday + 1;
        if CompletedOnDay(habit.progress, DayOf(now)) {
          completedToday := completedToday + 1;
        }
      }
      var habitStreak := CalculateHabitStreak(habit);
      assert MaxHabitStreak(habits[..k + 1]) == Max(maxStreak, HabitStreak(habit.progress));
      maxStreak := Max(maxStreak, habitStreak);
      k := k + 1;
    }
    assert habits[..k] == habits;
    CountHabitsImplies(habits, ProfileDoneAt(now), ProfileDueAt(now));
    st := ProfileStats(|habits|, completedToday, dueToday, maxStreak);
  }

  /** The "Today's Progress" figure: the rounded percentage followed by `%`,
      and `0%` when nothing is due. */
  function TodayProgressText(completedToday: nat, dueToday: nat): (s: string)
    ensures |s| >= 2 && s[|s| - 1] == '%'
    ensures dueToday == 0 ==> s == "0%"
    ensures dueToday > 0 ==>
      && (forall i :: 0 <= i < |s| - 1 ==> '0' <= s[i] <= '9')
      && DigitsValue(s[..|s| - 1]) == RoundPercent(completedToday, dueToday)
  {
    if dueToday > 0 then
      var digits := NatToString(RoundPercent(completedToday, dueToday));
      NatToStringRoundTrip(RoundPercent(completedToday, dueToday));
      assert (digits + "%")[..|digits|] == digits;
      digits + "%"
    else "0%"
  }

  // ---- handleEditProfile ----

  datatype EditForm = EditForm(username: string, email: string, currentPassword: string,
                               newPassword: string, confirmPassword: string)

  datatype EditError =
    | UsernameAndEmailRequired
    | InvalidEmail
    | CurrentPasswordRequired
    | PasswordsDoNotMatch
    | PasswordTooShort

  /** The body sent to the profile update: the fields as typed (not trimmed),
      and the passwords only when a new one is given. */
  datatype UpdatePayload = UpdatePayload(username: string, email: string, passwords: Option<(string, string)>)

  /** A character `[^\s@]` matches. */
  predicate Plain(c: char) {
    !IsWhitespace(c) && c != '@'
  }

  predicate AllPlain(s: string) {
    forall i :: 0 <= i < |s| ==> Plain(s[i])
  }

  /** `s` matches `^[^\s@]+@[^\s@]+\.[^\s@]+$`: it splits as `a@b.c` with
      `a`, `b` and `c` non-empty runs of plain characters. */
  predicate EmailPattern(s: string) {
    exists i, k :: 0 < i && i + 1 < k < |s| - 1 && s[i] == '@' && s[k] == '.'
                   && AllPlain(s[..i]) && AllPlain(s[i + 1..k]) && AllPlain(s[k + 1..])
  }

  /** The index of the first `@`, or `|s|`. */
  function IndexOfAt(s: string): (i: nat)
    ensures i <= |s| && (i < |s| ==> s[i] == '@')
    ensures forall j :: 0 <= j < i ==> s[j] != '@'
  {
    if s == [] || s[0] == '@' then 0 else IndexOfAt(s[1..]) + 1
  }

  /** A direct check of the pattern: no whitespace, exactly one `@`, which is
      not first, and a `.` strictly inside the part after it. */
  predicate IsEmail(s: string) {
    var i := IndexOfAt(s);
    && (forall j :: 0 <= j < |s| ==> !IsWhitespace(s[j]))
    && 0 < i < |s|
    && (forall j :: i < j < |s| ==> s[j] != '@')
    && (exists k :: i + 1 < k < |s| - 1 && s[k] == '.')
  }

  /** A run of plain characters, seen as a slice. */
  lemma AllPlainSlice(s: string, a: nat, b: nat)
    requires a <= b <= |s| && forall j :: a <= j < b ==> Plain(s[j])
    ensures AllPlain(s[a..b])
  {
    forall j | 0 <= j < b - a
      ensures Plain(s[a..b][j])
    {
      assert s[a..b][j] == s[a + j];
    }
  }

  /** The slices of a plain run are plain, character by character. */
  lemma PlainOfSlice(s: string, a: nat, b: nat, j: nat)
    requires a <= j < b <= |s| && AllPlain(s[a..b])
    ensures Plain(s[j])
  {
    assert s[a..b][j - a] == s[j];
  }

  /** What the direct check accepts, the pattern matches. */
  lemma IsEmailMatches(s: string)
    requires IsEmail(s)
    ensures EmailPattern(s)
  {
    var i := IndexOfAt(s);
    var k :| i + 1 < k < |s| - 1 && s[k] == '.';
    forall j | 0 <= j < |s| && j != i
      ensures Plain(s[j])
    {
    }
    AllPlainSlice(s, 0, i);
    AllPlainSlice(s, i + 1, k);
    AllPlainSlice(s, k + 1, |s|);
    assert s[..i] == s[0..i] && s[k + 1..] == s[k + 1..|s|];
  }

  /** The three plain runs of a match cover every character but the `@`. */
  lemma PlainOutsideAt(s: string, i: nat, k: nat)
    requires 0 < i && i + 1 < k < |s| - 1 && s[k] == '.'
    requires AllPlain(s[..i]) && AllPlain(s[i + 1..k]) && AllPlain(s[k + 1..])
    ensures forall j :: 0 <= j < |s| && j != i ==> Plain(s[j])
  {
    assert s[..i] == s[0..i] && s[k + 1..] == s[k + 1..|s|];
    forall j | 0 <= j < |s| && j != i
      ensures Plain(s[j])
    {
      if j < i {
        PlainOfSlice(s, 0, i, j);
      } else if j < k {
        PlainOfSlice(s, i + 1, k, j);
      } else if j > k {
        PlainOfSlice(s, k + 1, |s|, j);
      }
    }
  }

  /** An `@` with none before it is the first one. */
  lemma {:induction false} FirstAt(s: string, i: nat)
    requires i < |s| && s[i] == '@'
    requires forall j :: 0 <= j < i ==> s[j] != '@'
    ensures IndexOfAt(s) == i
  {
    if i > 0 {
      FirstAt(s[1..], i - 1);
    }
  }

  /** What the pattern matches, the direct check accepts. */
  lemma PatternIsEmail(s: string)
    requires EmailPattern(s)
    ensures IsEmail(s)
  {
    var i, k :| 0 < i && i + 1 < k < |s| - 1 && s[i] == '@' && s[k] == '.'
                && AllPlain(s[..i]) && AllPlain(s[i + 1..k]) && AllPlain(s[k + 1..]);
    PlainOutsideAt(s, i, k);
    FirstAt(s, i);
  }

  /** The direct check accepts exactly the strings the pattern matches. */
  lemma EmailCheckMatchesPattern(s: string)
    ensures IsEmail(s) <==> EmailPattern(s)
  {
    if IsEmail(s) {
      IsEmailMatches(s);
    }
    if EmailPattern(s) {
      PatternIsEmail(s);
    }
  }

  /** `handleEditProfile`: the first failing check in the order of the code, or
      the payload. */
  function ValidateEdit(f: EditForm): (r: Result<UpdatePayload, EditError>)
    ensures r == Failure(UsernameAndEmailRequired) <==> Trim(f.username) == [] || Trim(f.email) == []
    ensures r == Failure(InvalidEmail) <==>
      Trim(f.username) != [] && Trim(f.email) != [] && !EmailPattern(f.email)
    ensures r == Failure(CurrentPasswordRequired) <==>
      Trim(f.username) != [] && EmailPattern(f.email) && f.newPassword != [] && f.currentPassword == []
    ensures r == Failure(PasswordsDoNotMatch) <==>
      Trim(f.username) != [] && EmailPattern(f.email) && f.newPassword != [] && f.currentPassword != []
      && f.newPassword != f.confirmPassword
    ensures r == Failure(PasswordTooShort) <==>
      Trim(f.username) != [] && EmailPattern(f.email) && f.newPassword != [] && f.currentPassword != []
      && f.newPassword == f.confirmPassword && |f.newPassword| < 6
    ensures r.Success? ==> r.value.username == f.username && r.value.email == f.email
    ensures r.Success? ==> (r.value.passwords.Some? <==> f.newPassword != [])
    ensures r.Success? && r.value.passwords.Some? ==>
      r.value.passwords.value == (f.currentPassword, f.newPassword) && |f.newPassword| >= 6
  {
    EmailCheckMatchesPattern(f.email);
    EmailNotBlank(f.email);
    if Trim(f.username) == [] || Trim(f.email) == [] then Failure(UsernameAndEmailRequired)
    else if !IsEmail(f.email) then Failure(InvalidEmail)
    else if f.newPassword != [] && f.currentPassword == [] then Failure(CurrentPasswordRequired)
    else if f.newPassword != [] && f.newPassword != f.confirmPassword then Failure(PasswordsDoNotMatch)
    else if f.newPassword != [] && |f.newPassword| < 6 then Failure(PasswordTooShort)
    else Success(UpdatePayload(f.username, f.email,
                               if f.newPassword != [] then Some((f.currentPassword, f.newPassword)) else None))
  }

  /** An address the pattern matches is never blank. */
  lemma EmailNotBlank(s: string)
    ensures EmailPattern(s) ==> Trim(s) != []
  {
    if EmailPattern(s) {
      var i, k :| 0 < i && i + 1 < k < |s| - 1 && s[i] == '@' && s[k] == '.'
                  && AllPlain(s[..i]) && AllPlain(s[i + 1..k]) && AllPlain(s[k + 1..]);
      BlankIffAllWhitespace(s);
      assert !IsWhitespace(s[i]);
    }
  }
}
