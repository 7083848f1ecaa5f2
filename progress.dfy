/**
 * Queries over a habit's progress log that several screens and the backend
 * share: ordering newest first (the stable `sort((a, b) => b.date - a.date)`),
 * counting, looking up the entry of a calendar day, the frequency switch, the
 * completion rule and the rounding of percentages.
 */
module ProgressLog {
  import opened Wrappers
  import opened Dates
  import opened HabitModel

  // ---- ordering ----

  predicate NewestFirst(ps: seq<ProgressEntry>) {
    forall i, j :: 0 <= i < j < |ps| ==> ps[i].date >= ps[j].date
  }

  /** No entry of `ps` is dated after `d`. */
  predicate AllAtMost(ps: seq<ProgressEntry>, d: Instant) {
    forall k :: 0 <= k < |ps| ==> ps[k].date <= d
  }

  /** An entry not older than every entry of a newest-first log can go in
      front of it. */
  lemma ConsNewest(x: ProgressEntry, rest: seq<ProgressEntry>)
    requires NewestFirst(rest) && AllAtMost(rest, x.date)
    ensures NewestFirst([x] + rest)
  {
    var r := [x] + rest;
    forall i, j | 0 <= i < j < |r|
      ensures r[i].date >= r[j].date
    {
      assert r[j] == rest[j - 1];
      if i > 0 {
        assert r[i] == rest[i - 1];
      }
    }
  }

  /** The tail of a newest-first log is newest first and not newer than its
      head. */
  lemma TailNewest(ps: seq<ProgressEntry>)
    requires NewestFirst(ps) && ps != []
    ensures NewestFirst(ps[1..]) && AllAtMost(ps[1..], ps[0].date)
    ensures forall d :: AllAtMost(ps, d) ==> AllAtMost(ps[1..], d)
  {
  }

  /** An entry not after `d` in front of entries not after `d`. */
  lemma ConsAtMost(x: ProgressEntry, rest: seq<ProgressEntry>, d: Instant)
    requires x.date <= d && AllAtMost(rest, d)
    ensures AllAtMost([x] + rest, d)
  {
    var r := [x] + rest;
    forall k | 0 < k < |r|
      ensures r[k].date <= d
    {
      assert r[k] == rest[k - 1];
    }
  }

  /** What inserting `e` into `ps` must give: a newest-first log with one
      more entry, `e`, and nothing newer than a bound both respect. */
  ghost predicate InsertionOf(e: ProgressEntry, ps: seq<ProgressEntry>, r: seq<ProgressEntry>) {
    && NewestFirst(r)
    && multiset(r) == multiset(ps) + multiset{e}
    && |r| == |ps| + 1
    && forall d :: AllAtMost(ps, d) && e.date <= d ==> AllAtMost(r, d)
  }

  /** `e` goes in front when the log is empty or its head is not newer. */
  lemma InsertInFront(e: ProgressEntry, ps: seq<ProgressEntry>)
    requires NewestFirst(ps) && (ps == [] || ps[0].date <= e.date)
    ensures InsertionOf(e, ps, [e] + ps)
  {
    ConsNewest(e, ps);
    forall d | AllAtMost(ps, d) && e.date <= d
      ensures AllAtMost([e] + ps, d)
    {
      ConsAtMost(e, ps, d);
    }
  }

  /** Otherwise the head stays in front of `e` inserted into the tail. */
  lemma InsertBehind(e: ProgressEntry, ps: seq<ProgressEntry>, rest: seq<ProgressEntry>)
    requires NewestFirst(ps) && ps != [] && ps[0].date > e.date
    requires InsertionOf(e, ps[1..], rest)
    ensures InsertionOf(e, ps, [ps[0]] + rest)
  {
    TailNewest(ps);
    assert AllAtMost(rest, ps[0].date);
    ConsNewest(ps[0], rest);
    assert ps == [ps[0]] + ps[1..];
    assert multiset([ps[0]] + rest) == multiset{ps[0]} + multiset(rest);
    forall d | AllAtMost(ps, d) && e.date <= d
      ensures AllAtMost([ps[0]] + rest, d)
    {
      ConsAtMost(ps[0], rest, d);
    }
  }

  /** Puts `e` in front of the first entry that is not newer than it, so that
      among equal dates the earlier-listed entry stays first. */
  function InsertNewest(e: ProgressEntry, ps: seq<ProgressEntry>): (r: seq<ProgressEntry>)
    requires NewestFirst(ps)
    ensures NewestFirst(r)
    ensures multiset(r) == multiset(ps) + multiset{e}
    ensures |r| == |ps| + 1
    ensures forall d :: AllAtMost(ps, d) && e.date <= d ==> AllAtMost(r, d)
  {
    if ps == [] || ps[0].date <= e.date then
      InsertInFront(e, ps);
      [e] + ps
    else
      TailNewest(ps);
      var rest := InsertNewest(e, ps[1..]);
      InsertBehind(e, ps, rest);
      [ps[0]] + rest
  }

  /** The log sorted newest entry first: it orders the entries and neither
      loses nor invents any. How entries of equal date are ordered is not
      stated. */
  function SortNewestFirst(ps: seq<ProgressEntry>): (r: seq<ProgressEntry>)
    ensures NewestFirst(r)
    ensures multiset(r) == multiset(ps) && |r| == |ps|
  {
    if ps == [] then []
    else
      assert ps == [ps[0]] + ps[1..];
      InsertNewest(ps[0], SortNewestFirst(ps[1..]))
  }

  // ---- counting ----

  /** The number of entries satisfying `p` (`filter(p).length`). */
  function Count(ps: seq<ProgressEntry>, p: ProgressEntry -> bool): (n: nat)
    ensures n <= |ps|
  {
    if ps == [] then 0 else (if p(ps[0]) then 1 else 0) + Count(ps[1..], p)
  }

  /** `filter(p)`, keeping the order. */
  function Filter(ps: seq<ProgressEntry>, p: ProgressEntry -> bool): (r: seq<ProgressEntry>)
    ensures |r| == Count(ps, p)
    ensures forall e :: e in r <==> e in ps && p(e)
  {
    if ps == [] then [] else (if p(ps[0]) then [ps[0]] else []) + Filter(ps[1..], p)
  }

  lemma {:induction false} CountAppend(a: seq<ProgressEntry>, b: seq<ProgressEntry>, p: ProgressEntry -> bool)
    ensures Count(a + b, p) == Count(a, p) + Count(b, p)
  {
    if a == [] {
      assert a + b == b;
    } else {
      assert (a + b)[1..] == a[1..] + b;
      CountAppend(a[1..], b, p);
    }
  }

  lemma {:induction false} CountInsert(e: ProgressEntry, ps: seq<ProgressEntry>, p: ProgressEntry -> bool)
    requires NewestFirst(ps)
    ensures Count(InsertNewest(e, ps), p) == Count(ps, p) + (if p(e) then 1 else 0)
  {
    var r := InsertNewest(e, ps);
    if ps != [] && ps[0].date > e.date {
      TailNewest(ps);
      CountInsert(e, ps[1..], p);
      assert r == [ps[0]] + InsertNewest(e, ps[1..]);
      assert r[0] == ps[0] && r[1..] == InsertNewest(e, ps[1..]);
    } else {
      assert r == [e] + ps;
      assert r[0] == e && r[1..] == ps;
    }
  }

  /** Sorting does not change how many entries satisfy a condition. */
  lemma {:induction false} CountSorted(ps: seq<ProgressEntry>, p: ProgressEntry -> bool)
    ensures Count(SortNewestFirst(ps), p) == Count(ps, p)
  {
    if ps != [] {
      CountSorted(ps[1..], p);
      CountInsert(ps[0], SortNewestFirst(ps[1..]), p);
    }
  }

  /** Counting under a stronger condition never gives more. */
  lemma {:induction false} CountImplies(ps: seq<ProgressEntry>, p: ProgressEntry -> bool, q: ProgressEntry -> bool)
    requires forall e :: p(e) ==> q(e)
    ensures Count(ps, p) <= Count(ps, q)
  {
    if ps != [] {
      CountImplies(ps[1..], p, q);
    }
  }

  /** The `completed` flag, as a condition to count by. */
  function CompletedFlag(): ProgressEntry -> bool {
    (e: ProgressEntry) => e.completed
  }

  /** The dates `lo <= date` and, when there is an upper end, `date < hi`. */
  datatype Window = Window(lo: Instant, hi: Option<Instant>)

  predicate InWindow(w: Window, t: Instant) {
    w.lo <= t && (w.hi.None? || t < w.hi.value)
  }

  function DatedWithin(w: Window): ProgressEntry -> bool {
    (e: ProgressEntry) => InWindow(w, e.date)
  }

  function CompletedWithin(w: Window): ProgressEntry -> bool {
    (e: ProgressEntry) => InWindow(w, e.date) && e.completed
  }

  // ---- the entry of a calendar day ----

  /** `findIndex(p => <day of p.date> === day)`: the first entry logged on
      `day`, or -1 when there is none. */
  function FindDayIndex(ps: seq<ProgressEntry>, day: int): (i: int)
    ensures -1 <= i < |ps|
    ensures i >= 0 ==> DayOf(ps[i].date) == day
    ensures forall k :: 0 <= k < |ps| && (i == -1 || k < i) ==> DayOf(ps[k].date) != day
  {
    if ps == [] then -1
    else if DayOf(ps[0].date) == day then 0
    else
      var i := FindDayIndex(ps[1..], day);
      if i == -1 then -1 else i + 1
  }

  /** FindDayIndex is the first index of `day`: any such index is its result. */
  lemma FindDayIndexIs(ps: seq<ProgressEntry>, day: int, i: int)
    requires 0 <= i < |ps| && DayOf(ps[i].date) == day
    requires forall k :: 0 <= k < i ==> DayOf(ps[k].date) != day
    ensures FindDayIndex(ps, day) == i
  {
  }

  /** Without an entry of `day`, FindDayIndex gives -1. */
  lemma FindDayIndexNone(ps: seq<ProgressEntry>, day: int)
    requires forall k :: 0 <= k < |ps| ==> DayOf(ps[k].date) != day
    ensures FindDayIndex(ps, day) == -1
  {
  }

  /** `find(p => <day of p.date> === day)`. */
  function EntryOnDay(ps: seq<ProgressEntry>, day: int): (r: Option<ProgressEntry>)
    ensures r.Some? <==> exists k :: 0 <= k < |ps| && DayOf(ps[k].date) == day
    ensures r.Some? ==> r.value in ps && DayOf(r.value.date) == day
  {
    var i := FindDayIndex(ps, day);
    if i == -1 then None else Some(ps[i])
  }

  /** `entry?.completed` for the entry of `day`: false when there is none. */
  predicate CompletedOnDay(ps: seq<ProgressEntry>, day: int) {
    var e := EntryOnDay(ps, day);
    e.Some? && e.value.completed
  }

  /** At most one entry per calendar day. */
  predicate OnePerDay(ps: seq<ProgressEntry>) {
    forall i, j :: 0 <= i < j < |ps| ==> DayOf(ps[i].date) != DayOf(ps[j].date)
  }

  // ---- the frequency switch every "is due" variant shares ----

  /** `daily` is always due, `weekdays` is due Monday to Friday, `weekly` and
      `custom` on the listed weekdays, anything else never. */
  predicate ScheduleAllows(h: Habit, w: Weekday) {
    match h.frequency
    case Daily => true
    case Weekdays => !IsWeekend(w)
    case Weekly => w in h.days
    case Custom => w in h.days
    case Unrecognized => false
  }

  // ---- completion and percentages ----

  /** The completion rule of the habit details panel: the stored flag, or for
      a quantity-based habit a done quantity that reaches the target. */
  predicate IsCompleted(h: Habit, e: ProgressEntry) {
    e.completed || (h.isQuantityBased && e.quantityDone >= h.quantity)
  }

  /** `Math.round(part / whole * 100)` for `whole > 0`, and 0 for `whole == 0`:
      the nearest whole percentage, halves rounded up. */
  function RoundPercent(part: nat, whole: nat): (r: nat)
    ensures whole == 0 ==> r == 0
    ensures whole > 0 ==> 2 * whole * r <= 200 * part + whole < 2 * whole * r + 2 * whole
    ensures part <= whole ==> r <= 100
  {
    if whole == 0 then 0
    else
      var r := (200 * part + whole) / (2 * whole);
      PercentBound(part, whole, r);
      r
  }

  lemma PercentBound(part: nat, whole: nat, r: nat)
    requires whole > 0 && r == (200 * part + whole) / (2 * whole)
    ensures 2 * whole * r <= 200 * part + whole < 2 * whole * r + 2 * whole
    ensures part <= whole ==> r <= 100
  {
    var q := 2 * whole;
    var x := 200 * part + whole;
    assert x == q * (x / q) + x % q && 0 <= x % q < q;
    if part <= whole {
      assert q * r < q * 101;
      MulCancelLess(q, r, 101);
    }
  }

  lemma MulCancelLess(q: int, a: int, b: int)
    requires q > 0 && q * a < q * b
    ensures a < b
  {
  }

  // ---- shared helpers ----

  function Max(a: nat, b: nat): (m: nat)
    ensures m >= a && m >= b && (m == a || m == b)
  {
    if a >= b then a else b
  }

  function Min(a: nat, b: nat): (m: nat)
    ensures m <= a && m <= b && (m == a || m == b)
  {
    if a <= b then a else b
  }

  /** The length of the run of completed entries that ends just before index `n`. */
  function RunEndingAt(ps: seq<ProgressEntry>, n: nat): (k: nat)
    requires n <= |ps|
    ensures k <= n
  {
    if n == 0 || !ps[n - 1].completed then 0 else RunEndingAt(ps, n - 1) + 1
  }

  /** The entries of the run are completed and the one before it is not. */
  lemma {:induction false} RunEndingAtIsRun(ps: seq<ProgressEntry>, n: nat)
    requires n <= |ps|
    ensures forall j :: n - RunEndingAt(ps, n) <= j < n ==> ps[j].completed
    ensures RunEndingAt(ps, n) < n ==> !ps[n - 1 - RunEndingAt(ps, n)].completed
  {
    if n > 0 && ps[n - 1].completed {
      RunEndingAtIsRun(ps, n - 1);
    }
  }

  /** The longest run of consecutive completed entries among the first `n`. */
  function LongestRun(ps: seq<ProgressEntry>, n: nat): (k: nat)
    requires n <= |ps|
    ensures RunEndingAt(ps, n) <= k <= n
  {
    if n == 0 then 0 else Max(LongestRun(ps, n - 1), RunEndingAt(ps, n))
  }

  /** LongestRun is the largest of the runs, and it is attained. */
  lemma {:induction false} LongestRunIsMax(ps: seq<ProgressEntry>, n: nat)
    requires n <= |ps|
    ensures forall m :: 0 <= m <= n ==> RunEndingAt(ps, m) <= LongestRun(ps, n)
    ensures exists m :: 0 <= m <= n && RunEndingAt(ps, m) == LongestRun(ps, n)
  {
    if n == 0 {
      assert RunEndingAt(ps, 0) == LongestRun(ps, 0);
    } else {
      LongestRunIsMax(ps, n - 1);
      if LongestRun(ps, n - 1) < RunEndingAt(ps, n) {
        assert RunEndingAt(ps, n) == LongestRun(ps, n);
      }
    }
  }

  /**
   * The streak ending just before index `n` in a newest-first log: the
   * completed entries ending there, each one day (as `gap` measures the
   * distance from an older date to the next newer one) before the entry
   * after it. An uncompleted entry, or a gap other than one day, ends it.
   */
  function DatedRun(ps: seq<ProgressEntry>, n: nat, gap: (Instant, Instant) -> nat): (k: nat)
    requires n <= |ps|
    ensures k <= RunEndingAt(ps, n)
  {
    if n == 0 || !ps[n - 1].completed then 0
    else if n >= 2 && ps[n - 2].completed && gap(ps[n - 1].date, ps[n - 2].date) == 1 then
      DatedRun(ps, n - 1, gap) + 1
    else 1
  }

  /** The streak is a block of completed, day-apart entries that cannot be extended further back. */
  lemma {:induction false} DatedRunIsRun(ps: seq<ProgressEntry>, n: nat, gap: (Instant, Instant) -> nat)
    requires n <= |ps|
    ensures forall j :: n - DatedRun(ps, n, gap) <= j < n ==> ps[j].completed
    ensures forall j :: n - DatedRun(ps, n, gap) < j < n ==> gap(ps[j].date, ps[j - 1].date) == 1
    ensures DatedRun(ps, n, gap) == 0 <==> n == 0 || !ps[n - 1].completed
    ensures var k := DatedRun(ps, n, gap);
      0 < k < n ==> !ps[n - 1 - k].completed || gap(ps[n - k].date, ps[n - 1 - k].date) != 1
  {
    if n >= 2 && ps[n - 1].completed && ps[n - 2].completed && gap(ps[n - 1].date, ps[n - 2].date) == 1 {
      DatedRunIsRun(ps, n - 1, gap);
    }
  }

  /** The longest streak among the first `n` entries. */
  function BestDatedRun(ps: seq<ProgressEntry>, n: nat, gap: (Instant, Instant) -> nat): (k: nat)
    requires n <= |ps|
    ensures DatedRun(ps, n, gap) <= k <= LongestRun(ps, n)
  {
    if n == 0 then 0 else Max(BestDatedRun(ps, n - 1, gap), DatedRun(ps, n, gap))
  }

  /** BestDatedRun is the largest streak ending anywhere in the prefix, and it is attained. */
  lemma {:induction false} BestDatedRunIsMax(ps: seq<ProgressEntry>, n: nat, gap: (Instant, Instant) -> nat)
    requires n <= |ps|
    ensures forall m :: 0 <= m <= n ==> DatedRun(ps, m, gap) <= BestDatedRun(ps, n, gap)
    ensures exists m :: 0 <= m <= n && DatedRun(ps, m, gap) == BestDatedRun(ps, n, gap)
  {
    if n == 0 {
      assert DatedRun(ps, 0, gap) == BestDatedRun(ps, 0, gap);
    } else {
      BestDatedRunIsMax(ps, n - 1, gap);
      if BestDatedRun(ps, n - 1, gap) < DatedRun(ps, n, gap) {
        assert DatedRun(ps, n, gap) == BestDatedRun(ps, n, gap);
      }
    }
  }

  /** The number of entries over all habits that satisfy `p`. */
  function CountAcross(hs: seq<Habit>, p: ProgressEntry -> bool): nat {
    if hs == [] then 0 else CountAcross(hs[..|hs| - 1], p) + Count(hs[|hs| - 1].progress, p)
  }

  lemma {:induction false} CountAcrossImplies(hs: seq<Habit>, p: ProgressEntry -> bool, q: ProgressEntry -> bool)
    requires forall e :: p(e) ==> q(e)
    ensures CountAcross(hs, p) <= CountAcross(hs, q)
  {
    if hs != [] {
      CountAcrossImplies(hs[..|hs| - 1], p, q);
      CountImplies(hs[|hs| - 1].progress, p, q);
    }
  }
}
