/**
 * The habit document of the backend's Mongoose schema: its fields, enums,
 * defaults and bounds, and the validation `Habit.create` applies to a request
 * body before it stores a habit.
 */
module HabitModel {
  import opened Wrappers
  import opened Text
  import opened Dates

  datatype Frequency = Daily | Weekly | Weekdays | Custom
    /** Any other value; the schema refuses it, the frontend's switches fall to `default`. */
    | Unrecognized

  datatype Priority = Low | Medium | High

  /** One logged day of a habit. `quantityDone` has no lower bound in the schema. */
  datatype ProgressEntry = ProgressEntry(date: Instant, completed: bool, quantityDone: int)

  /** A stored habit, as the API returns it. `startDate` is optional because the
      frontend guards against its absence; the schema always fills it. */
  datatype Habit = Habit(
    id: string,
    user: string,
    name: string,
    description: Option<string>,
    startDate: Option<Instant>,
    frequency: Frequency,
    days: seq<Weekday>,
    reminderTime: Option<Instant>,
    isQuantityBased: bool,
    quantity: int,
    color: string,
    priority: Priority,
    selectedIcon: int,
    progress: seq<ProgressEntry>)

  const DEFAULT_COLOR: string := "#5CE1E6"
  const DEFAULT_QUANTITY: int := 1

  /** What every habit the schema accepts satisfies. */
  predicate ValidHabit(h: Habit) {
    && h.name != [] && Trim(h.name) == h.name
    && (h.description.Some? ==> Trim(h.description.value) == h.description.value)
    && h.startDate.Some?
    && h.frequency != Unrecognized
    && h.quantity >= 1
  }

  // ---- request bodies, before casting and validation ----

  datatype ProgressInput = ProgressInput(date: Option<Instant>, completed: Option<bool>, quantityDone: Option<int>)

  /** A request body. `metric` is not a schema path: the schema drops it. */
  datatype HabitInput = HabitInput(
    name: Option<string>,
    description: Option<string>,
    startDate: Option<Instant>,
    frequency: Option<string>,
    days: seq<string>,
    reminderTime: Option<Instant>,
    isQuantityBased: Option<bool>,
    quantity: Option<int>,
    color: Option<string>,
    priority: Option<string>,
    selectedIcon: Option<int>,
    user: Option<string>,
    metric: Option<string>,
    progress: seq<ProgressInput>)

  /** One validation error per failing schema path. */
  datatype SchemaError =
    | NameRequired
    | FrequencyRequired
    | FrequencyNotInEnum
    | DayNotInEnum(index: nat)
    | QuantityBelowMinimum
    | PriorityNotInEnum
    | SelectedIconRequired
    | UserRequired
    | ProgressDateRequired(index: nat)

  /** The four values of the frequency enum; an empty string is none of them. */
  function ParseFrequency(s: string): (r: Option<Frequency>)
    ensures r.Some? ==> s != [] && r.value != Unrecognized
  {
    if s == "daily" then Some(Daily)
    else if s == "weekly" then Some(Weekly)
    else if s == "weekdays" then Some(Weekdays)
    else if s == "custom" then Some(Custom)
    else None
  }

  function ParseWeekday(s: string): Option<Weekday> {
    if s == "mon" then Some(Mon)
    else if s == "tue" then Some(Tue)
    else if s == "wed" then Some(Wed)
    else if s == "thu" then Some(Thu)
    else if s == "fri" then Some(Fri)
    else if s == "sat" then Some(Sat)
    else if s == "sun" then Some(Sun)
    else None
  }

  function ParsePriority(s: string): Option<Priority> {
    if s == "low" then Some(Low)
    else if s == "medium" then Some(Medium)
    else if s == "high" then Some(High)
    else None
  }

  /** The trimmed name; `required` refuses it when it is missing or empty. */
  function NameErrors(input: HabitInput): seq<SchemaError> {
    if input.name.None? || Trim(input.name.value) == [] then [NameRequired] else []
  }

  /** `required` is checked first (an empty string fails it), then the enum. */
  function FrequencyErrors(input: HabitInput): seq<SchemaError> {
    if input.frequency.None? || input.frequency.value == [] then [FrequencyRequired]
    else if ParseFrequency(input.frequency.value).None? then [FrequencyNotInEnum]
    else []
  }

  function DayErrors(days: seq<string>, from: nat): (r: seq<SchemaError>)
    ensures r == [] <==> forall i :: 0 <= i < |days| ==> ParseWeekday(days[i]).Some?
    ensures forall e :: e in r ==> e.DayNotInEnum? && from <= e.index < from + |days|
  {
    if days == [] then []
    else
      (if ParseWeekday(days[0]).None? then [DayNotInEnum(from)] else [])
      + DayErrors(days[1..], from + 1)
  }

  function ProgressErrors(progress: seq<ProgressInput>, from: nat): (r: seq<SchemaError>)
    ensures r == [] <==> forall i :: 0 <= i < |progress| ==> progress[i].date.Some?
    ensures forall e :: e in r ==> e.ProgressDateRequired? && from <= e.index < from + |progress|
  {
    if progress == [] then []
    else
      (if progress[0].date.None? then [ProgressDateRequired(from)] else [])
      + ProgressErrors(progress[1..], from + 1)
  }

  /** Every validation error of a body, in the order of the schema's paths. */
  function SchemaErrors(input: HabitInput): seq<SchemaError> {
    NameErrors(input)
    + FrequencyErrors(input)
    + DayErrors(input.days, 0)
    + (if input.quantity.Some? && input.quantity.value < 1 then [QuantityBelowMinimum] else [])
    + (if input.priority.Some? && ParsePriority(input.priority.value).None? then [PriorityNotInEnum] else [])
    + (if input.selectedIcon.None? then [SelectedIconRequired] else [])
    + (if input.user.None? then [UserRequired] else [])
    + ProgressErrors(input.progress, 0)
  }

  /** The schema's rules, path by path, as a reader of Habit.js states them. */
  predicate SchemaAccepts(input: HabitInput) {
    && input.name.Some? && Trim(input.name.value) != []
    && input.frequency.Some? && ParseFrequency(input.frequency.value).Some?
    && (forall i :: 0 <= i < |input.days| ==> ParseWeekday(input.days[i]).Some?)
    && (input.quantity.Some? ==> input.quantity.value >= 1)
    && (input.priority.Some? ==> ParsePriority(input.priority.value).Some?)
    && input.selectedIcon.Some?
    && input.user.Some?
    && (forall i :: 0 <= i < |input.progress| ==> input.progress[i].date.Some?)
  }

  function CastDays(days: seq<string>): (r: seq<Weekday>)
    requires forall i :: 0 <= i < |days| ==> ParseWeekday(days[i]).Some?
    ensures |r| == |days| && forall i :: 0 <= i < |days| ==> ParseWeekday(days[i]) == Some(r[i])
  {
    if days == [] then [] else [ParseWeekday(days[0]).value] + CastDays(days[1..])
  }

  /** One progress entry with its defaults: not completed, nothing done. */
  function CastEntry(p: ProgressInput): (e: ProgressEntry)
    requires p.date.Some?
    ensures e.date == p.date.value
    ensures e.completed == p.completed.GetOr(false) && e.quantityDone == p.quantityDone.GetOr(0)
  {
    ProgressEntry(p.date.value, p.completed.GetOr(false), p.quantityDone.GetOr(0))
  }

  /** The progress array, entry by entry with its defaults, in order. */
  function CastProgress(progress: seq<ProgressInput>): (r: seq<ProgressEntry>)
    requires forall i :: 0 <= i < |progress| ==> progress[i].date.Some?
    ensures |r| == |progress|
    ensures forall i :: 0 <= i < |progress| ==> r[i] == CastEntry(progress[i])
  {
    seq(|progress|, i requires 0 <= i < |progress| => CastEntry(progress[i]))
  }

  /** A body has no validation error exactly when the schema accepts it. */
  lemma SchemaErrorsEmpty(input: HabitInput)
    ensures SchemaErrors(input) == [] <==> SchemaAccepts(input)
  {
    var n, f := NameErrors(input), FrequencyErrors(input);
    var d, g := DayErrors(input.days, 0), ProgressErrors(input.progress, 0);
    var q := if input.quantity.Some? && input.quantity.value < 1 then [QuantityBelowMinimum] else [];
    var p := if input.priority.Some? && ParsePriority(input.priority.value).None? then [PriorityNotInEnum] else [];
    var i := if input.selectedIcon.None? then [SelectedIconRequired] else [];
    var u := if input.user.None? then [UserRequired] else [];
    assert SchemaErrors(input) == n + f + d + q + p + i + u + g;
    assert |SchemaErrors(input)| == |n| + |f| + |d| + |q| + |p| + |i| + |u| + |g|;
    assert f == [] <==> input.frequency.Some? && ParseFrequency(input.frequency.value).Some?;
  }

  /** The missing-user error is reported exactly for a body without a user. */
  lemma UserErrorIffMissing(input: HabitInput)
    ensures UserRequired in SchemaErrors(input) <==> input.user.None?
  {
    var n, f := NameErrors(input), FrequencyErrors(input);
    var d, g := DayErrors(input.days, 0), ProgressErrors(input.progress, 0);
    var q := if input.quantity.Some? && input.quantity.value < 1 then [QuantityBelowMinimum] else [];
    var p := if input.priority.Some? && ParsePriority(input.priority.value).None? then [PriorityNotInEnum] else [];
    var i := if input.selectedIcon.None? then [SelectedIconRequired] else [];
    var u := if input.user.None? then [UserRequired] else [];
    assert SchemaErrors(input) == n + f + d + q + p + i + u + g;
    assert UserRequired !in n + f + d + q + p + i;
    assert UserRequired !in g;
  }

  /** The habit a body that passes validation becomes. */
  function Cast(input: HabitInput, id: string, now: Instant): (h: Habit)
    requires SchemaAccepts(input)
    ensures ValidHabit(h) && h.id == id && h.user == input.user.value
  {
    var name := Trim(input.name.value);
    TrimIdempotent(input.name.value);
    var description := if input.description.Some? then Some(Trim(input.description.value)) else None;
    assert description.Some? ==> Trim(description.value) == description.value by {
      if input.description.Some? { TrimIdempotent(input.description.value); }
    }
    var frequency := ParseFrequency(input.frequency.value).value;
    assert frequency != Unrecognized;
    var quantity := input.quantity.GetOr(DEFAULT_QUANTITY);
    assert quantity >= 1;
    var h := Habit(
      id := id,
      user := input.user.value,
      name := name,
      description := description,
      startDate := Some(input.startDate.GetOr(now)),
      frequency := frequency,
      days := CastDays(input.days),
      reminderTime := input.reminderTime,
      isQuantityBased := input.isQuantityBased.GetOr(false),
      quantity := quantity,
      color := input.color.GetOr(DEFAULT_COLOR),
      priority := if input.priority.Some? then ParsePriority(input.priority.value).value else Medium,
      selectedIcon := input.selectedIcon.value,
      progress := CastProgress(input.progress));
    assert ValidHabit(h);
    h
  }

  /** `Habit.create(body)`: casting, defaults, trimming and validation.
      `id` is the generated `_id` and `now` the time of the call (`Date.now`). */
  function Validate(input: HabitInput, id: string, now: Instant): (r: Result<Habit, seq<SchemaError>>)
    ensures r.Success? <==> SchemaAccepts(input)
    ensures r.Failure? ==> r.error != []
    ensures r.Success? ==> ValidHabit(r.value) && r.value.id == id && r.value.user == input.user.value
  {
    SchemaErrorsEmpty(input);
    var errors := SchemaErrors(input);
    if errors != [] then Failure(errors) else Success(Cast(input, id, now))
  }

  /** A body the schema accepts is stored as its cast. */
  lemma ValidateIsCast(input: HabitInput, id: string, now: Instant)
    requires SchemaAccepts(input)
    ensures Validate(input, id, now) == Success(Cast(input, id, now))
  {
    SchemaErrorsEmpty(input);
  }

  /** The schema's defaults: an absent field takes its declared default. */
  lemma ValidateDefaults(input: HabitInput, id: string, now: Instant)
    requires SchemaAccepts(input)
    ensures var h := Validate(input, id, now).value;
      && (input.startDate.None? ==> h.startDate == Some(now))
      && (input.isQuantityBased.None? ==> !h.isQuantityBased)
      && (input.quantity.None? ==> h.quantity == 1)
      && (input.priority.None? ==> h.priority == Medium)
      && (input.color.None? ==> h.color == DEFAULT_COLOR)
  {
    ValidateIsCast(input, id, now);
  }

  /** An entry stored from `p` took the defaults for what `p` leaves out. */
  predicate StoredWithDefaults(p: ProgressInput, e: ProgressEntry) {
    && (p.completed.None? ==> !e.completed)
    && (p.quantityDone.None? ==> e.quantityDone == 0)
  }

  /** A progress entry without `completed` or `quantityDone` is stored as not
      completed with nothing done. */
  lemma ValidateProgressDefaults(input: HabitInput, id: string, now: Instant)
    requires SchemaAccepts(input)
    ensures var ps := Validate(input, id, now).value.progress;
      && |ps| == |input.progress|
      && forall i :: 0 <= i < |ps| ==> StoredWithDefaults(input.progress[i], ps[i])
  {
    ValidateIsCast(input, id, now);
    CastKeepsProgress(input, id, now);
  }

  /** The cast stores the progress entries with their defaults. */
  lemma CastKeepsProgress(input: HabitInput, id: string, now: Instant)
    requires SchemaAccepts(input)
    ensures Cast(input, id, now).progress == CastProgress(input.progress)
  {
  }

  /** The schema does not require `days` to be non-empty, whatever the frequency,
      and it accepts a negative `quantityDone`. */
  lemma SchemaAllowsEmptyDaysAndNegativeQuantityDone()
    ensures SchemaAccepts(HabitInput(Some("R"), None, None, Some("weekly"), [], None, None, None,
                                     None, None, Some(0), Some("u1"), None,
                                     [ProgressInput(Some(0), None, Some(-3))]))
  {
    assert !IsWhitespace('R');
    assert TrimStart("R") == "R";
    assert TrimEnd("R") == "R";
    assert ParseFrequency("weekly") == Some(Weekly);
  }
}
