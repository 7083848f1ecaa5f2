/**
 * The notifications page: the list it loads, the removal of one notification
 * or of all of them, and the icon and colour each notification type is shown
 * with.
 */
module NotificationsPanel {
  import opened Wrappers
  import opened Dates
  import opened HabitModel
  import opened NotificationService

  /** On mount: the stored list cut to the notifications of the last three
      days, in stored order. */
  function Load(stored: seq<Notification>, now: Instant): (r: seq<Notification>)
    ensures |r| <= |stored|
    ensures forall n :: n in r <==> n in stored && n.timestamp > now - 3 * DAY_MS
  {
    Retain(stored, now)
  }

  /** The page opened at the time the service last saved shows the saved list
      whole. */
  lemma LoadAfterSave(saved: seq<Notification>, n: Notification, now: Instant)
    ensures Load(Retain(saved + [n], now), now) == Retain(saved + [n], now)
  {
    RetainIdempotent(saved + [n], now);
  }

  /** `clearNotification(id)`: every notification with that id goes. */
  function ClearNotification(ns: seq<Notification>, id: string): (r: seq<Notification>)
    ensures |r| <= |ns|
    ensures forall n :: n in r <==> n in ns && n.id != id
  {
    if ns == [] then []
    else if ns[0].id == id then ClearNotification(ns[1..], id)
    else [ns[0]] + ClearNotification(ns[1..], id)
  }

  /** The removal keeps the others in their order: it distributes over
      concatenation. */
  lemma {:induction false} ClearNotificationAppend(a: seq<Notification>, b: seq<Notification>, id: string)
    ensures ClearNotification(a + b, id) == ClearNotification(a, id) + ClearNotification(b, id)
  {
    if a == [] {
      assert a + b == b;
    } else {
      assert (a + b)[0] == a[0];
      assert (a + b)[1..] == a[1..] + b;
      ClearNotificationAppend(a[1..], b, id);
    }
  }

  /** A list without that id is left as it is. */
  lemma {:induction false} ClearAbsentId(ns: seq<Notification>, id: string)
    requires forall k :: 0 <= k < |ns| ==> ns[k].id != id
    ensures ClearNotification(ns, id) == ns
  {
    if ns != [] {
      ClearAbsentId(ns[1..], id);
    }
  }

  /** Removing and then reloading is reloading and then removing: the
      retention and the removal commute. */
  lemma {:induction false} ClearCommutesWithLoad(ns: seq<Notification>, id: string, now: Instant)
    ensures Load(ClearNotification(ns, id), now) == ClearNotification(Load(ns, now), id)
  {
    if ns != [] {
      ClearCommutesWithLoad(ns[1..], id, now);
    }
  }

  /** `clearAllNotifications()`: the list becomes empty, whatever it held. */
  function ClearAll(ns: seq<Notification>): (r: seq<Notification>)
    ensures |r| == 0
  {
    []
  }

  /** After clearing all, a removal or a reload changes nothing. */
  lemma ClearAllIsFinal(ns: seq<Notification>, id: string, now: Instant)
    ensures ClearNotification(ClearAll(ns), id) == ClearAll(ns) && Load(ClearAll(ns), now) == ClearAll(ns)
  {
  }

  // ---- the type mappings ----

  /** The icons a notification may be drawn with. */
  datatype Icon = Clock | CalendarIcon | AlertCircle | CheckCircle | Bell

  /** The notification types the page knows. */
  predicate KnownKind(kind: string) {
    kind == "reminder" || kind == "daily-summary" || kind == "missed" || kind == "completed"
  }

  /** `getNotificationIcon(type)`. */
  function IconFor(kind: string): (i: Icon)
    ensures i == Bell <==> !KnownKind(kind)
    ensures kind == "reminder" <==> i == Clock
    ensures kind == "daily-summary" <==> i == CalendarIcon
    ensures kind == "missed" <==> i == AlertCircle
    ensures kind == "completed" <==> i == CheckCircle
  {
    match kind
    case "reminder" => Clock
    case "daily-summary" => CalendarIcon
    case "missed" => AlertCircle
    case "completed" => CheckCircle
    case _ => Bell
  }

  /** `getNotificationColor(type)`. */
  function ColorFor(kind: string): (c: string)
    ensures c == "bg-gray-500" <==> !KnownKind(kind)
    ensures kind == "reminder" <==> c == "bg-blue-500"
    ensures kind == "daily-summary" <==> c == "bg-purple-500"
    ensures kind == "missed" <==> c == "bg-red-500"
    ensures kind == "completed" <==> c == "bg-green-500"
  {
    match kind
    case "reminder" => "bg-blue-500"
    case "daily-summary" => "bg-purple-500"
    case "missed" => "bg-red-500"
    case "completed" => "bg-green-500"
    case _ => "bg-gray-500"
  }

  /** The two mappings agree: each type gets its own icon and its own colour,
      so the colour determines the icon and the other way round. */
  lemma IconAndColorAgree(a: string, b: string)
    ensures IconFor(a) == IconFor(b) <==> ColorFor(a) == ColorFor(b)
  {
  }

  /** The service's notifications all have a type the page knows: the
      reminders a clock, the late one an alert, the summary a calendar. */
  lemma ServiceKindsAreKnown(h: Habit, at: Instant, ids: seq<string>, lateMessage: string,
                             hs: seq<Habit>, id: string, now: Instant)
    requires |ids| == 4
    ensures var cs := Candidates(h, at, ids, lateMessage);
      (forall i :: 0 <= i < 3 ==> IconFor(cs[i].kind) == Clock) && IconFor(cs[3].kind) == AlertCircle
    ensures var s := DailySummary(hs, id, now);
      s.Some? ==> IconFor(s.value.kind) == CalendarIcon && ColorFor(s.value.kind) == "bg-purple-500"
  {
  }
}
