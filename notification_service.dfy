/**
 * The browser-side notification service: the habits it considers due today,
 * the 07:00 daily check, the daily summary, the reminder timers of a habit
 * keyed by habit and time, and the stored notification list with its
 * three-day retention and its de-duplication by type and time.
 */
module NotificationService {
  import opened Wrappers
  import opened Text
  import opened Dates
  import opened HabitModel
  import opened ProgressLog

  /** A notification; `kind` is its `type` field. */
  datatype Notification = Notification(
    id: string,
    kind: string,
    habitId: Option<string>,
    title: string,
    message: string,
    timestamp: Instant)

  // ---- retention ----

  const RETENTION_MS: int := 3 * DAY_MS

  /** `isAfter(parseISO(n.timestamp), subDays(new Date(), 3))`. */
  predicate Recent(n: Notification, now: Instant) {
    n.timestamp > now - RETENTION_MS
  }

  /** The notifications kept: exactly the recent ones, in their order. */
  function Retain(ns: seq<Notification>, now: Instant): (r: seq<Notification>)
    ensures |r| <= |ns|
    ensures forall n :: n in r <==> n in ns && Recent(n, now)
  {
    if ns == [] then []
    else if Recent(ns[0], now) then [ns[0]] + Retain(ns[1..], now)
    else Retain(ns[1..], now)
  }

  /** Retention distributes over concatenation, so it keeps the order. */
  lemma {:induction false} RetainAppend(a: seq<Notification>, b: seq<Notification>, now: Instant)
    ensures Retain(a + b, now) == Retain(a, now) + Retain(b, now)
  {
    if a == [] {
      assert a + b == b;
    } else {
      assert (a + b)[0] == a[0];
      assert (a + b)[1..] == a[1..] + b;
      RetainAppend(a[1..], b, now);
    }
  }

  /** Applying retention again at the same time changes nothing. */
  lemma {:induction false} RetainIdempotent(ns: seq<Notification>, now: Instant)
    ensures Retain(Retain(ns, now), now) == Retain(ns, now)
  {
    if ns != [] {
      RetainIdempotent(ns[1..], now);
    }
  }

  // ---- isHabitDueToday and getTodaysHabits ----

  /** The service's due check: the frequency switch alone, with no start-date gate. */
  predicate DueToday(h: Habit, now: Instant) {
    ScheduleAllows(h, WeekdayOf(DayOf(now)))
  }

  /** `habits.filter(habit => isHabitDueToday(habit))`. */
  function TodaysHabits(hs: seq<Habit>, now: Instant): (r: seq<Habit>)
    ensures |r| <= |hs|
    ensures forall h :: h in r <==> h in hs && DueToday(h, now)
  {
    if hs == [] then []
    else if DueToday(hs[0], now) then [hs[0]] + TodaysHabits(hs[1..], now)
    else TodaysHabits(hs[1..], now)
  }

  // ---- setupDailyCheck ----

  const DAILY_CHECK_HOUR: int := 7

  /** `scheduledTime - now`: until 07:00 today, or 07:00 tomorrow once 07:00
      has passed. The check fires at a 07:00 within the next day. */
  function DailyCheckDelay(now: Instant): (r: int)
    ensures 0 <= r < DAY_MS
    ensures (now + r) % DAY_MS == DAILY_CHECK_HOUR * HOUR_MS
  {
    var scheduled := StartOfDay(now) + DAILY_CHECK_HOUR * HOUR_MS;
    var target := if now > scheduled then scheduled + DAY_MS else scheduled;
    assert target == (DayOf(now) + (if now > scheduled then 1 else 0)) * DAY_MS + DAILY_CHECK_HOUR * HOUR_MS;
    target - now
  }

  // ---- the daily summary ----

  /** `format(t, 'h:mm a')`: the hour on a 12-hour clock, two-digit minutes
      and AM or PM. */
  function ClockText(t: Instant): (s: string)
    ensures |s| >= 7
  {
    var ms := t % DAY_MS;
    var hour := ms / HOUR_MS;
    var minute := ms / MINUTE_MS % 60;
    var h12 := if hour % 12 == 0 then 12 else hour % 12;
    NatToString(h12) + ":" + Pad(minute, 2) + " " + (if hour < 12 then "AM" else "PM")
  }

  function SummaryLine(h: Habit): string {
    "• " + h.name + (if h.reminderTime.Some? then " at " + ClockText(h.reminderTime.value) else "")
  }

  function JoinLines(hs: seq<Habit>): string {
    if hs == [] then ""
    else if |hs| == 1 then SummaryLine(hs[0])
    else SummaryLine(hs[0]) + "\n" + JoinLines(hs[1..])
  }

  /** The summary notification for the habits due today, if there are any. */
  function DailySummary(hs: seq<Habit>, id: string, now: Instant): (r: Option<Notification>)
    ensures r.None? <==> TodaysHabits(hs, now) == []
    ensures r.Some? ==> r.value.kind == "daily-summary" && r.value.timestamp == now && r.value.habitId.None?
  {
    var due := TodaysHabits(hs, now);
    if due == [] then None
    else Some(Notification(id, "daily-summary", None, "\U{1F305} Your Day Ahead",
      "You have " + NatToString(|due|) + " habits scheduled for today:\n" + JoinLines(due), now))
  }

  // ---- the reminder plan ----

  const THIRTY_MIN_BEFORE: int := -30 * MINUTE_MS
  const FIVE_MIN_BEFORE: int := -5 * MINUTE_MS
  const LATE_AFTER: int := 15 * MINUTE_MS

  /** The four reminders of a habit whose reminder is at `at`, in time order;
      only the one 15 minutes late has type `missed`. `ids` stands for the
      generated ids and `lateMessage` for the randomly chosen late message. */
  function Candidates(h: Habit, at: Instant, ids: seq<string>, lateMessage: string): (cs: seq<Notification>)
    requires |ids| == 4
    ensures |cs| == 4
    ensures forall i, j :: 0 <= i < j < 4 ==> cs[i].timestamp < cs[j].timestamp
    ensures forall i :: 0 <= i < 4 ==> cs[i].habitId == Some(h.id) && cs[i].id == ids[i]
    ensures forall i :: 0 <= i < 4 ==> (cs[i].kind == "missed" <==> i == 3) && (i < 3 ==> cs[i].kind == "reminder")
    ensures cs[0].timestamp == at + THIRTY_MIN_BEFORE && cs[1].timestamp == at + FIVE_MIN_BEFORE
    ensures cs[2].timestamp == at && cs[3].timestamp == at + LATE_AFTER
  {
    var name := "\"" + h.name + "\"";
    [ Notification(ids[0], "reminder", Some(h.id), "⏰ Upcoming Habit",
        name + " is starting in 30 minutes!", at + THIRTY_MIN_BEFORE),
      Notification(ids[1], "reminder", Some(h.id), "⚡ Almost Time!",
        "Get ready! " + name + " starts in 5 minutes.", at + FIVE_MIN_BEFORE),
      Notification(ids[2], "reminder", Some(h.id), "\U{1F3AF} Time to Start!",
        "It's time for " + name + "! Let's do this!", at),
      Notification(ids[3], "missed", Some(h.id), "\U{1F605} Running Late?",
        lateMessage, at + LATE_AFTER) ]
  }

  /** Timestamps strictly increase along the list. */
  predicate TimeOrdered(cs: seq<Notification>) {
    forall i, j :: 0 <= i < j < |cs| ==> cs[i].timestamp < cs[j].timestamp
  }

  /** The candidates strictly after `now`, in order. */
  function Upcoming(cs: seq<Notification>, now: Instant): (r: seq<Notification>)
    ensures |r| <= |cs|
    ensures forall n :: n in r <==> n in cs && n.timestamp > now
  {
    if cs == [] then []
    else if cs[0].timestamp > now then [cs[0]] + Upcoming(cs[1..], now)
    else Upcoming(cs[1..], now)
  }

  /** The tail of a time-ordered list is time-ordered and later than its head. */
  lemma TailOrdered(cs: seq<Notification>)
    requires TimeOrdered(cs) && cs != []
    ensures TimeOrdered(cs[1..])
    ensures forall n :: n in cs[1..] ==> cs[0].timestamp < n.timestamp
  {
    forall n | n in cs[1..]
      ensures cs[0].timestamp < n.timestamp
    {
      var k :| 0 <= k < |cs[1..]| && cs[1..][k] == n;
      assert cs[k + 1] == n;
    }
  }

  /** A notification earlier than every one of a time-ordered list can go in front. */
  lemma ConsOrdered(x: Notification, rest: seq<Notification>)
    requires TimeOrdered(rest)
    requires forall n :: n in rest ==> x.timestamp < n.timestamp
    ensures TimeOrdered([x] + rest)
  {
    var r := [x] + rest;
    forall i, j | 0 <= i < j < |r|
      ensures r[i].timestamp < r[j].timestamp
    {
      assert r[j] == rest[j - 1];
      if i > 0 { assert r[i] == rest[i - 1]; }
    }
  }

  /** Keeping the future candidates keeps their time order. */
  lemma {:induction false} UpcomingOrdered(cs: seq<Notification>, now: Instant)
    requires TimeOrdered(cs)
    ensures TimeOrdered(Upcoming(cs, now))
  {
    if cs != [] {
      TailOrdered(cs);
      UpcomingOrdered(cs[1..], now);
      if cs[0].timestamp > now {
        ConsOrdered(cs[0], Upcoming(cs[1..], now));
      }
    }
  }

  /** The reminders `scheduleHabitReminders` sets: none without a reminder
      time, otherwise at most four, all in the future, in time order. */
  function ReminderPlan(h: Habit, now: Instant, ids: seq<string>, lateMessage: string): (plan: seq<Notification>)
    requires |ids| == 4
    ensures h.reminderTime.None? ==> plan == []
    ensures |plan| <= 4
    ensures forall n :: n in plan ==> n.timestamp > now && n.habitId == Some(h.id)
    ensures h.reminderTime.Some? ==> forall n :: n in plan <==> n in Candidates(h, h.reminderTime.value, ids, lateMessage) && n.timestamp > now
    ensures TimeOrdered(plan)
  {
    if h.reminderTime.None? then []
    else
      var cs := Candidates(h, h.reminderTime.value, ids, lateMessage);
      UpcomingOrdered(cs, now);
      Upcoming(cs, now)
  }

  lemma {:induction false} UpcomingAll(cs: seq<Notification>, now: Instant)
    requires forall i :: 0 <= i < |cs| ==> cs[i].timestamp > now
    ensures Upcoming(cs, now) == cs
  {
    if cs != [] {
      UpcomingAll(cs[1..], now);
    }
  }

  lemma {:induction false} UpcomingNone(cs: seq<Notification>, now: Instant)
    requires forall i :: 0 <= i < |cs| ==> cs[i].timestamp <= now
    ensures Upcoming(cs, now) == []
  {
    if cs != [] {
      UpcomingNone(cs[1..], now);
    }
  }

  /** At least half an hour ahead all four reminders are set; once the late
      one is past, none is. */
  lemma ReminderPlanCount(h: Habit, now: Instant, ids: seq<string>, lateMessage: string)
    requires |ids| == 4 && h.reminderTime.Some?
    ensures h.reminderTime.value + THIRTY_MIN_BEFORE > now ==> |ReminderPlan(h, now, ids, lateMessage)| == 4
    ensures h.reminderTime.value + LATE_AFTER <= now ==> ReminderPlan(h, now, ids, lateMessage) == []
  {
    var cs := Candidates(h, h.reminderTime.value, ids, lateMessage);
    if h.reminderTime.value + THIRTY_MIN_BEFORE > now {
      UpcomingAll(cs, now);
    }
    if h.reminderTime.value + LATE_AFTER <= now {
      UpcomingNone(cs, now);
    }
  }

  // ---- the timer map ----

  /** The timer `setTimeout` returns, standing for the notification it will
      save and the delay it waits. */
  datatype Timer = Timer(notification: Notification, delay: int)

  /** A key of the timer map, `${notification.habitId}-${notification.timestamp}`,
      held as the two parts it is printed from; a missing habit id prints as
      `undefined`. */
  datatype TimerKey = TimerKey(habit: string, stamp: Instant)

  function KeyOf(n: Notification): (k: TimerKey)
    ensures n.habitId.Some? ==> k.habit == n.habitId.value
  {
    TimerKey(n.habitId.GetOr("undefined"), n.timestamp)
  }

  /** The key as the string the service stores. */
  function KeyText(k: TimerKey): string {
    k.habit + "-" + IsoString(k.stamp)
  }

  /** `key.startsWith(prefix)` on the printed key. */
  predicate KeyStartsWith(k: TimerKey, prefix: string) {
    StartsWith(KeyText(k), prefix)
  }

  /** Every key of a habit's reminder starts with `${habitId}-`. */
  lemma KeyOfHabit(n: Notification, id: string)
    requires n.habitId == Some(id)
    ensures KeyStartsWith(KeyOf(n), id + "-")
  {
    var key := KeyText(KeyOf(n));
    assert key[..|id + "-"|] == id + "-";
  }

  /** The timers of `m` whose key `doomed` does not hold for. */
  function DropKeys(m: map<TimerKey, Timer>, doomed: TimerKey -> bool): map<TimerKey, Timer> {
    map k | k in m && !doomed(k) :: m[k]
  }

  /** The prefix test as a condition on keys. */
  function PrefixTest(prefix: string): TimerKey -> bool {
    k => KeyStartsWith(k, prefix)
  }

  /** The timers left once those of keys starting with `prefix` are gone. */
  function WithoutPrefix(m: map<TimerKey, Timer>, prefix: string): (r: map<TimerKey, Timer>)
    ensures forall k :: k in r <==> k in m && !KeyStartsWith(k, prefix)
    ensures forall k :: k in r ==> r[k] == m[k]
  {
    DropKeys(m, PrefixTest(prefix))
  }

  /** One `if (isAfter(time, now)) scheduleNotification(...)` of the plan. */
  function ScheduleStep(m: map<TimerKey, Timer>, n: Notification, now: Instant): map<TimerKey, Timer> {
    if n.timestamp > now then m[KeyOf(n) := Timer(n, n.timestamp - now)] else m
  }

  /** The timer map after the candidates are considered in order. */
  function ScheduleAll(m: map<TimerKey, Timer>, cs: seq<Notification>, now: Instant): map<TimerKey, Timer> {
    if cs == [] then m else ScheduleStep(ScheduleAll(m, cs[..|cs| - 1], now), cs[|cs| - 1], now)
  }

  /** The keys of the candidates after `now`. */
  function PlannedKeys(cs: seq<Notification>, now: Instant): set<TimerKey> {
    if cs == [] then {}
    else
      var last := cs[|cs| - 1];
      PlannedKeys(cs[..|cs| - 1], now) + (if last.timestamp > now then {KeyOf(last)} else {})
  }

  /** Only the planned keys are added or replaced, each with a positive
      delay; every other key keeps its timer. */
  lemma {:induction false} ScheduleAllFrame(m: map<TimerKey, Timer>, cs: seq<Notification>, now: Instant)
    ensures ScheduleAll(m, cs, now).Keys == m.Keys + PlannedKeys(cs, now)
    ensures forall k :: k in m && k !in PlannedKeys(cs, now) ==> ScheduleAll(m, cs, now)[k] == m[k]
    ensures forall k :: k in PlannedKeys(cs, now) ==> ScheduleAll(m, cs, now)[k].delay > 0
  {
    if cs != [] {
      ScheduleAllFrame(m, cs[..|cs| - 1], now);
    }
  }

  /** The planned keys of one habit's candidates all start with its prefix. */
  lemma {:induction false} PlannedKeysPrefix(cs: seq<Notification>, now: Instant, id: string)
    requires forall i :: 0 <= i < |cs| ==> cs[i].habitId == Some(id)
    ensures forall k :: k in PlannedKeys(cs, now) ==> KeyStartsWith(k, id + "-")
  {
    if cs != [] {
      PlannedKeysPrefix(cs[..|cs| - 1], now, id);
      KeyOfHabit(cs[|cs| - 1], id);
    }
  }

  /** After rescheduling, every timer of the habit lies in the future, and
      the timers of keys outside the habit's prefix are untouched. */
  lemma RescheduledTimers(m: map<TimerKey, Timer>, h: Habit, now: Instant, ids: seq<string>, lateMessage: string)
    requires |ids| == 4 && h.reminderTime.Some?
    ensures var cs := Candidates(h, h.reminderTime.value, ids, lateMessage);
      var r := ScheduleAll(WithoutPrefix(m, h.id + "-"), cs, now);
      && (forall k :: k in r && KeyStartsWith(k, h.id + "-") ==> r[k].delay > 0)
      && (forall k :: !KeyStartsWith(k, h.id + "-") ==> (k in r <==> k in m) && (k in m ==> r[k] == m[k]))
  {
    var cs := Candidates(h, h.reminderTime.value, ids, lateMessage);
    var m' := WithoutPrefix(m, h.id + "-");
    ScheduleAllFrame(m', cs, now);
    PlannedKeysPrefix(cs, now, h.id);
  }

  /** Four scheduling steps in a row make up ScheduleAll of the four. */
  lemma ScheduleFour(m0: map<TimerKey, Timer>, cs: seq<Notification>, now: Instant,
                     t1: map<TimerKey, Timer>, t2: map<TimerKey, Timer>, t3: map<TimerKey, Timer>, t4: map<TimerKey, Timer>)
    requires |cs| == 4
    requires t1 == ScheduleStep(m0, cs[0], now) && t2 == ScheduleStep(t1, cs[1], now)
    requires t3 == ScheduleStep(t2, cs[2], now) && t4 == ScheduleStep(t3, cs[3], now)
    ensures t4 == ScheduleAll(m0, cs, now)
  {
    assert cs[..1][..0] == [];
    assert ScheduleAll(m0, cs[..1], now) == t1;
    assert cs[..2][..1] == cs[..1];
    assert ScheduleAll(m0, cs[..2], now) == t2;
    assert cs[..3][..2] == cs[..2];
    assert ScheduleAll(m0, cs[..3], now) == t3;
    assert cs[..3] == cs[..|cs| - 1];
  }

  /** The `forEach` of `clearExistingReminders`: every key is visited once
      and the timer of each key `doomed` holds for is deleted; the others
      stay as they were. */
  method DropMatching(m: map<TimerKey, Timer>, doomed: TimerKey -> bool) returns (r: map<TimerKey, Timer>)
    ensures r == DropKeys(m, doomed)
    ensures forall k :: k in r <==> k in m && !doomed(k)
  {
    r := m;
    var remaining := m.Keys;
    while remaining != {}
      invariant remaining <= m.Keys
      invariant forall k :: k in r <==> k in m && (k in remaining || !doomed(k))
      invariant forall k :: k in r ==> r[k] == m[k]
      decreases remaining
    {
      var k :| k in remaining;
      if doomed(k) {
        r := r - {k};
      }
      remaining := remaining - {k};
    }
  }

  // ---- the service ----

  /** The key of `sentNotifications`: `${type}-${timestamp}`. */
  function SentKey(n: Notification): string {
    n.kind + "-" + IsoString(n.timestamp)
  }

  class Service {
    /** The stored notifications (`localStorage` under `notifications`). */
    var notifications: seq<Notification>
    /** `sentNotifications`. */
    var sentKeys: set<string>
    /** `scheduledTimers`. */
    var scheduledTimers: map<TimerKey, Timer>
    /** When the pending daily check fires. */
    var dailyCheckAt: Option<Instant>

    /** The service as it starts: the stored list, nothing sent or scheduled,
        and the daily check set. */
    constructor(stored: seq<Notification>, now: Instant)
      ensures notifications == stored && sentKeys == {} && scheduledTimers == map[]
      ensures dailyCheckAt == Some(now + DailyCheckDelay(now))
    {
      notifications := stored;
      sentKeys := {};
      scheduledTimers := map[];
      dailyCheckAt := Some(now + DailyCheckDelay(now));
    }

    /** `setupDailyCheck()`: replaces the pending daily check. */
    method SetupDailyCheck(now: Instant)
      modifies this
      ensures dailyCheckAt == Some(now + DailyCheckDelay(now))
      ensures notifications == old(notifications) && sentKeys == old(sentKeys) && scheduledTimers == old(scheduledTimers)
    {
      dailyCheckAt := Some(now + DailyCheckDelay(now));
    }

    /** `saveNotification(n)`: nothing when its type and time were sent
        before; otherwise the key is recorded, the keys the 24-hour clean-up
        drops (`pruned`) are forgotten, and `n` is appended before the list
        is cut to the last three days. */
    method SaveNotification(n: Notification, now: Instant, pruned: set<string>)
      modifies this
      ensures SentKey(n) in old(sentKeys) ==> notifications == old(notifications) && sentKeys == old(sentKeys)
      ensures SentKey(n) !in old(sentKeys) ==>
        && sentKeys == (old(sentKeys) + {SentKey(n)}) - pruned
        && notifications == Retain(old(notifications) + [n], now)
      ensures scheduledTimers == old(scheduledTimers) && dailyCheckAt == old(dailyCheckAt)
    {
      var key := SentKey(n);
      if key in sentKeys {
        return;
      }
      sentKeys := sentKeys + {key};
      sentKeys := sentKeys - pruned;
      notifications := notifications + [n];
      notifications := Retain(notifications, now);
    }

    /** `sendDailySummary()` once the habits are fetched: the summary of the
        habits due today is saved, or nothing happens when none is due. */
    method SendDailySummary(hs: seq<Habit>, id: string, now: Instant, pruned: set<string>)
      modifies this
      ensures DailySummary(hs, id, now).None? ==>
        notifications == old(notifications) && sentKeys == old(sentKeys)
      ensures var s := DailySummary(hs, id, now);
        s.Some? && SentKey(s.value) !in old(sentKeys) ==>
        notifications == Retain(old(notifications) + [s.value], now)
      ensures var s := DailySummary(hs, id, now);
        s.Some? && SentKey(s.value) !in old(sentKeys) ==>
        sentKeys == (old(sentKeys) + {SentKey(s.value)}) - pruned
      ensures var s := DailySummary(hs, id, now);
        s.Some? && SentKey(s.value) in old(sentKeys) ==>
        notifications == old(notifications) && sentKeys == old(sentKeys)
      ensures scheduledTimers == old(scheduledTimers) && dailyCheckAt == old(dailyCheckAt)
    {
      var summary := DailySummary(hs, id, now);
      if summary.None? {
        return;
      }
      SaveNotification(summary.value, now, pruned);
    }

    /** `clearExistingReminders(habitId)`: deletes, key by key, the timers
        whose key starts with `${habitId}-`. */
    method ClearExistingReminders(habitId: string)
      modifies this
      ensures scheduledTimers == WithoutPrefix(old(scheduledTimers), habitId + "-")
      ensures notifications == old(notifications) && sentKeys == old(sentKeys) && dailyCheckAt == old(dailyCheckAt)
    {
      scheduledTimers := DropMatching(scheduledTimers, PrefixTest(habitId + "-"));
    }

    /** `scheduleNotification(time, n)`: one timer per key, a new one
        replacing the old. */
    method ScheduleNotification(time: Instant, n: Notification, now: Instant)
      modifies this
      ensures scheduledTimers == old(scheduledTimers)[KeyOf(n) := Timer(n, time - now)]
      ensures notifications == old(notifications) && sentKeys == old(sentKeys) && dailyCheckAt == old(dailyCheckAt)
    {
      var key := KeyOf(n);
      scheduledTimers := scheduledTimers[key := Timer(n, time - now)];
    }

    /** `if (isAfter(time, now)) this.scheduleNotification(time, n)`, with
        the notification's own timestamp as its time. */
    method ScheduleIfAfter(n: Notification, now: Instant)
      modifies this
      ensures scheduledTimers == ScheduleStep(old(scheduledTimers), n, now)
      ensures notifications == old(notifications) && sentKeys == old(sentKeys) && dailyCheckAt == old(dailyCheckAt)
    {
      if n.timestamp > now {
        ScheduleNotification(n.timestamp, n, now);
      }
    }

    /** `scheduleHabitReminders(habit)`: without a reminder time nothing
        changes; otherwise the habit's timers are cleared and each of the four
        reminders after `now` is scheduled. */
    method ScheduleHabitReminders(h: Habit, now: Instant, ids: seq<string>, lateMessage: string)
      requires |ids| == 4
      modifies this
      ensures h.reminderTime.None? ==> scheduledTimers == old(scheduledTimers)
      ensures h.reminderTime.Some? ==>
        scheduledTimers == ScheduleAll(WithoutPrefix(old(scheduledTimers), h.id + "-"), Candidates(h, h.reminderTime.value, ids, lateMessage), now)
      ensures notifications == old(notifications) && sentKeys == old(sentKeys) && dailyCheckAt == old(dailyCheckAt)
    {
      if h.reminderTime.None? {
        return;
      }
      ClearExistingReminders(h.id);
      var m0 := scheduledTimers;
      var cs := Candidates(h, h.reminderTime.value, ids, lateMessage);
      ScheduleIfAfter(cs[0], now);
      var t1 := scheduledTimers;
      ScheduleIfAfter(cs[1], now);
      var t2 := scheduledTimers;
      ScheduleIfAfter(cs[2], now);
      var t3 := scheduledTimers;
      ScheduleIfAfter(cs[3], now);
      ScheduleFour(m0, cs, now, t1, t2, t3, scheduledTimers);
      assert scheduledTimers == ScheduleAll(m0, cs, now);
    }
  }
}
