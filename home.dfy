/**
 * The home page's four stat cards: the value and the trend line each card
 * shows for the dashboard statistics, where the response or any of its
 * fields may be missing and a missing number shows as 0.
 */
module HomeStats {
  import opened Wrappers
  import opened Text
  import opened HabitController

  /** The statistics response as the page reads it. */
  datatype DashboardData = DashboardData(
    activeHabits: Option<int>,
    completionRate: Option<int>,
    weekOverWeekChange: Option<int>,
    currentStreak: Option<int>,
    bestStreak: Option<int>,
    achievements: Option<int>,
    newAchievements: Option<int>)

  datatype StatField =
    ActiveHabits | CompletionRate | WeekOverWeekChange | CurrentStreak | BestStreak | Achievements | NewAchievements

  /** `data?.<field>`: absent when the response or the field is. */
  function Read(data: Option<DashboardData>, f: StatField): Option<int> {
    if data.None? then None
    else
      var d := data.value;
      match f
      case ActiveHabits => d.activeHabits
      case CompletionRate => d.completionRate
      case WeekOverWeekChange => d.weekOverWeekChange
      case CurrentStreak => d.currentStreak
      case BestStreak => d.bestStreak
      case Achievements => d.achievements
      case NewAchievements => d.newAchievements
  }

  /** `data?.<field> ?? 0`. */
  function Shown(data: Option<DashboardData>, f: StatField): int {
    Read(data, f).GetOr(0)
  }

  /** `data?.<field> > 0`: false when the field is absent. */
  predicate Positive(data: Option<DashboardData>, f: StatField) {
    Read(data, f).Some? && Read(data, f).value > 0
  }

  /** The value of a bare count card (active habits, achievements): the
      number shown, 0 when it is missing. */
  function CountValue(data: Option<DashboardData>, f: StatField): (s: string)
    ensures Read(data, f).None? ==> s == "0"
    ensures IsDecimal(s) && IntValue(s) == Shown(data, f)
  {
    IntToStringRoundTrip(Shown(data, f));
    IntToString(Shown(data, f))
  }

  /** The completion-rate card: the rate followed by `%`. */
  function CompletionRateValue(data: Option<DashboardData>): (s: string)
    ensures Read(data, CompletionRate).None? ==> s == "0%"
    ensures |s| >= 2 && s[|s| - 1] == '%'
    ensures IsDecimal(s[..|s| - 1]) && IntValue(s[..|s| - 1]) == Shown(data, CompletionRate)
  {
    var n := IntToString(Shown(data, CompletionRate));
    IntToStringRoundTrip(Shown(data, CompletionRate));
    var s := n + "%";
    assert s[..|s| - 1] == n;
    s
  }

  /** `<n> days`, the current-streak card's value and the tail of its trend. */
  function DaysText(n: int): (s: string)
    ensures |s| >= 6 && s[|s| - 5..] == " days"
    ensures IsDecimal(s[..|s| - 5]) && IntValue(s[..|s| - 5]) == n
  {
    IntToStringRoundTrip(n);
    var s := IntToString(n) + " days";
    assert s[..|s| - 5] == IntToString(n);
    s
  }

  /** The current-streak card: `0 days` when the streak is missing. */
  function CurrentStreakValue(data: Option<DashboardData>): (s: string)
    ensures Read(data, CurrentStreak).None? ==> s == "0 days"
    ensures |s| >= 6 && s[|s| - 5..] == " days"
    ensures IsDecimal(s[..|s| - 5]) && IntValue(s[..|s| - 5]) == Shown(data, CurrentStreak)
  {
    DaysText(Shown(data, CurrentStreak))
  }

  /** The active-habits trend. */
  function ActiveTrend(data: Option<DashboardData>): (s: string)
    ensures s == "Active now" <==> Positive(data, ActiveHabits)
    ensures s != "Active now" ==> s == "Start one today!"
  {
    if Positive(data, ActiveHabits) then "Active now" else "Start one today!"
  }

  /** The week-over-week trend: a `+` before a rise, the change, then
      `% vs last week`. */
  function ChangeTrend(data: Option<DashboardData>): (s: string)
    ensures var change := Shown(data, WeekOverWeekChange);
      && |s| > 14 && s[|s| - 14..] == "% vs last week"
      && (s[0] == '+' <==> change > 0)
      && var digits := if change > 0 then s[1..|s| - 14] else s[..|s| - 14];
         IsDecimal(digits) && IntValue(digits) == change
  {
    var change := Shown(data, WeekOverWeekChange);
    var sign := if change > 0 then "+" else "";
    var n := IntToString(change);
    IntToStringRoundTrip(change);
    var s := sign + n + "% vs last week";
    assert s[|s| - 14..] == "% vs last week";
    assert s[|sign|..|s| - 14] == n;
    assert s[0] == if change > 0 then '+' else n[0];
    s
  }

  /** The best-streak trend: `Best: <n> days`. */
  function BestTrend(data: Option<DashboardData>): (s: string)
    ensures Read(data, BestStreak).None? ==> s == "Best: 0 days"
    ensures |s| >= 12 && s[..6] == "Best: " && s[|s| - 5..] == " days"
    ensures IsDecimal(s[6..|s| - 5]) && IntValue(s[6..|s| - 5]) == Shown(data, BestStreak)
  {
    var d := DaysText(Shown(data, BestStreak));
    var s := "Best: " + d;
    assert s[6..] == d;
    assert s[6..|s| - 5] == d[..|d| - 5];
    s
  }

  /** The achievements trend: `<n> new unlocked` for a positive count of new
      achievements, otherwise `Keep going!`. */
  function AchievementsTrend(data: Option<DashboardData>): (s: string)
    ensures s == "Keep going!" <==> !Positive(data, NewAchievements)
    ensures Positive(data, NewAchievements) ==>
      |s| > 13 && s[|s| - 13..] == " new unlocked"
      && IsDecimal(s[..|s| - 13]) && IntValue(s[..|s| - 13]) == Read(data, NewAchievements).value
  {
    if Positive(data, NewAchievements) then
      var n := Read(data, NewAchievements).value;
      IntToStringRoundTrip(n);
      var s := IntToString(n) + " new unlocked";
      assert s[..|s| - 13] == IntToString(n);
      assert s[|s| - 13..] == " new unlocked";
      s
    else "Keep going!"
  }

  /** The page's view of a full statistics response from the server. */
  function FromStats(st: HabitStats): DashboardData {
    DashboardData(Some(st.activeHabits), Some(st.completionRate), Some(st.weekOverWeekChange),
                  Some(st.currentStreak), Some(st.bestStreak), Some(st.achievements), Some(st.newAchievements))
  }

  /** For statistics as `getHabitStats` computes them, the cards read
      `Active now` exactly when the user has a habit, `Keep going!` exactly
      when there is no achievement yet, and a rate of at most 100 before
      the `%`. */
  lemma CardsForServerStats(st: HabitStats)
    requires st.completionRate <= 100
    requires st.newAchievements == 0 <==> st.achievements == 0
    ensures ActiveTrend(Some(FromStats(st))) == "Active now" <==> st.activeHabits > 0
    ensures AchievementsTrend(Some(FromStats(st))) == "Keep going!" <==> st.achievements == 0
    ensures var s := CompletionRateValue(Some(FromStats(st)));
      IntValue(s[..|s| - 1]) <= 100
  {
  }
}
