/**
 * The habit form: its defaults, the change handlers of its inputs, the
 * weekday toggle, its validation, and the icon catalogue with its search
 * filter and selection.
 */
module HabitForm {
  import opened Wrappers
  import opened Text
  import opened Dates
  import opened HabitModel

  // ---- the icon catalogue ----

  /** The icon components the catalogue and the list refer to. */
  datatype Glyph =
    | HeartPulse | Brain | Dumbbell | BookOpen | Coffee | Bike | Flame | Moon
    | Music | Palette | Pencil | Leaf | ScrollText | ShoppingBag | Laptop
    | Heart | Utensils | Gamepad2 | DollarSign | SunGlyph | Target | Zap
    /** The fallback the list shows for an index outside the catalogue. */
    | Circle

  /** A catalogue entry; `name` is the entry's label. */
  datatype HabitIcon = HabitIcon(icon: Glyph, name: string, category: string)

  /** `habitIcons`, in order. */
  const HABIT_ICONS: seq<HabitIcon> := [
    HabitIcon(HeartPulse, "Health", "Wellness"),
    HabitIcon(Brain, "Focus", "Wellness"),
    HabitIcon(Dumbbell, "Exercise", "Fitness"),
    HabitIcon(BookOpen, "Read", "Education"),
    HabitIcon(Coffee, "Coffee", "Lifestyle"),
    HabitIcon(Bike, "Cycling", "Fitness"),
    HabitIcon(Flame, "Fitness", "Health"),
    HabitIcon(Moon, "Sleep", "Wellness"),
    HabitIcon(Music, "Music", "Hobby"),
    HabitIcon(Palette, "Art", "Hobby"),
    HabitIcon(Pencil, "Write", "Education"),
    HabitIcon(Leaf, "Nature", "Wellness"),
    HabitIcon(ScrollText, "Journal", "Wellness"),
    HabitIcon(ShoppingBag, "Shopping", "Lifestyle"),
    HabitIcon(Laptop, "Digital", "Technology"),
    HabitIcon(Heart, "Self-Care", "Wellness"),
    HabitIcon(Utensils, "Cooking", "Lifestyle"),
    HabitIcon(Gamepad2, "Gaming", "Hobby"),
    HabitIcon(DollarSign, "Finance", "Lifestyle"),
    HabitIcon(SunGlyph, "Meditation", "Wellness"),
    HabitIcon(Target, "Goals", "Productivity"),
    HabitIcon(Zap, "Energy", "Wellness")
  ]

  /** The search box stores its text lower-cased. */
  function IconFilter(typed: string): (f: string)
    ensures |f| == |typed| && forall i :: 0 <= i < |f| ==> !('A' <= f[i] <= 'Z')
    ensures forall i :: 0 <= i < |f| ==> f[i] == LowerChar(typed[i])
  {
    ToLower(typed)
  }

  /** An icon is shown when its lower-cased label or category contains the filter. */
  predicate IconMatches(ic: HabitIcon, filter: string) {
    Contains(ToLower(ic.name), filter) || Contains(ToLower(ic.category), filter)
  }

  /** The search as a condition on icons. */
  function KeptBy(filter: string): HabitIcon -> bool {
    (ic: HabitIcon) => IconMatches(ic, filter)
  }

  /** The positions, from `from` on, of the icons `keep` holds for, in order. */
  function MatchingFrom(icons: seq<HabitIcon>, keep: HabitIcon -> bool, from: nat): (r: seq<nat>)
    requires from <= |icons|
    ensures forall k :: 0 <= k < |r| ==> from <= r[k] < |icons| && keep(icons[r[k]])
    ensures forall j, k :: 0 <= j < k < |r| ==> r[j] < r[k]
    ensures forall i :: from <= i < |icons| && keep(icons[i]) ==> i in r
    decreases |icons| - from
  {
    if from == |icons| then []
    else if keep(icons[from]) then [from] + MatchingFrom(icons, keep, from + 1)
    else MatchingFrom(icons, keep, from + 1)
  }

  /** A sequence that lists the icons at the matching positions holds
      exactly the kept icons. */
  lemma KeptAreListed(icons: seq<HabitIcon>, keep: HabitIcon -> bool, r: seq<HabitIcon>)
    requires |r| == |MatchingFrom(icons, keep, 0)|
    requires forall k :: 0 <= k < |r| ==> r[k] == icons[MatchingFrom(icons, keep, 0)[k]]
    ensures forall ic :: ic in r <==> ic in icons && keep(ic)
  {
    var idx := MatchingFrom(icons, keep, 0);
    forall ic | ic in r
      ensures ic in icons && keep(ic)
    {
      var k :| 0 <= k < |r| && r[k] == ic;
      assert icons[idx[k]] == ic;
    }
    forall ic | ic in icons && keep(ic)
      ensures ic in r
    {
      var i :| 0 <= i < |icons| && icons[i] == ic;
      var k :| 0 <= k < |idx| && idx[k] == i;
      assert r[k] == ic;
    }
  }

  /** `icons.filter(keep)`: the icons kept, in catalogue order, each taken
      from the catalogue position MatchingFrom names. */
  function FilterIcons(icons: seq<HabitIcon>, keep: HabitIcon -> bool): (r: seq<HabitIcon>)
    ensures |r| == |MatchingFrom(icons, keep, 0)|
    ensures forall k :: 0 <= k < |r| ==> r[k] == icons[MatchingFrom(icons, keep, 0)[k]]
    ensures forall ic :: ic in r <==> ic in icons && keep(ic)
  {
    var idx := MatchingFrom(icons, keep, 0);
    var r := seq(|idx|, k requires 0 <= k < |idx| => icons[idx[k]]);
    KeptAreListed(icons, keep, r);
    r
  }

  /** The positions in the catalogue of the icons shown for `filter`. */
  function MatchingIndices(filter: string): seq<nat> {
    MatchingFrom(HABIT_ICONS, KeptBy(filter), 0)
  }

  /** The icons the grid shows for `filter`. */
  function FilteredIcons(filter: string): seq<HabitIcon> {
    FilterIcons(HABIT_ICONS, KeptBy(filter))
  }

  lemma ContainsEmpty(s: string)
    ensures Contains(s, "")
  {
    assert OccursAt(s, "", 0);
  }

  /** Every icon matches the empty filter. */
  lemma {:induction false} MatchingFromAll(icons: seq<HabitIcon>, from: nat)
    requires from <= |icons|
    ensures |MatchingFrom(icons, KeptBy(""), from)| == |icons| - from
    ensures forall k :: 0 <= k < |icons| - from ==> MatchingFrom(icons, KeptBy(""), from)[k] == from + k
    decreases |icons| - from
  {
    if from < |icons| {
      ContainsEmpty(ToLower(icons[from].name));
      assert IconMatches(icons[from], "");
      MatchingFromAll(icons, from + 1);
    }
  }

  /** An empty search shows every icon, in catalogue order. */
  lemma EmptyFilterKeepsAll(icons: seq<HabitIcon>)
    ensures FilterIcons(icons, KeptBy("")) == icons
  {
    MatchingFromAll(icons, 0);
  }

  /** With an empty search the grid shows all 22 icons. */
  lemma EmptyFilterShowsAll()
    ensures FilteredIcons("") == HABIT_ICONS
    ensures |FilteredIcons("")| == 22
  {
    EmptyFilterKeepsAll(HABIT_ICONS);
  }

  // ---- the form state ----

  datatype FormData = FormData(
    name: string,
    description: string,
    startDate: Instant,
    frequency: Frequency,
    days: seq<Weekday>,
    reminderTime: Option<Instant>,
    isQuantityBased: bool,
    quantity: int,
    color: string,
    priority: Priority,
    selectedIcon: int)

  /** The fields an edited habit brings in, each possibly absent. */
  datatype InitialData = InitialData(
    name: Option<string>,
    description: Option<string>,
    startDate: Option<Instant>,
    frequency: Option<Frequency>,
    days: Option<seq<Weekday>>,
    reminderTime: Option<Option<Instant>>,
    isQuantityBased: Option<bool>,
    quantity: Option<int>,
    color: Option<string>,
    priority: Option<Priority>,
    selectedIcon: Option<int>)

  const NoInitialData := InitialData(None, None, None, None, None, None, None, None, None, None, None)

  /** The initial form: the defaults, each overridden by the field of
      `initialData` when present; `now` is the time the form opens. */
  function InitialForm(init: InitialData, now: Instant): (f: FormData)
    ensures f.name == init.name.GetOr("") && f.description == init.description.GetOr("")
    ensures f.startDate == init.startDate.GetOr(now)
    ensures f.frequency == init.frequency.GetOr(Daily) && f.days == init.days.GetOr([])
    ensures f.reminderTime == init.reminderTime.GetOr(None)
    ensures f.isQuantityBased == init.isQuantityBased.GetOr(false)
    ensures f.quantity == init.quantity.GetOr(DEFAULT_QUANTITY)
    ensures f.color == init.color.GetOr(DEFAULT_COLOR) && f.priority == init.priority.GetOr(Medium)
    ensures f.selectedIcon == init.selectedIcon.GetOr(0)
  {
    FormData(
      init.name.GetOr(""), init.description.GetOr(""), init.startDate.GetOr(now),
      init.frequency.GetOr(Daily), init.days.GetOr([]), init.reminderTime.GetOr(None),
      init.isQuantityBased.GetOr(false), init.quantity.GetOr(DEFAULT_QUANTITY),
      init.color.GetOr(DEFAULT_COLOR), init.priority.GetOr(Medium), init.selectedIcon.GetOr(0))
  }

  /** A new form is daily, has no days, a quantity of 1, medium priority and
      is not quantity based; so it is invalid only for its blank name. */
  lemma NewFormDefaults(now: Instant)
    ensures var f := InitialForm(NoInitialData, now);
      && f.frequency == Daily && f.days == [] && f.quantity == 1 && f.priority == Medium
      && !f.isQuantityBased && f.selectedIcon == 0 && f.color == DEFAULT_COLOR
      && (forall k :: k in ValidateForm(f) <==> k == NameField)
  {
    var f := InitialForm(NoInitialData, now);
    assert f == FormData("", "", now, Daily, [], None, false, DEFAULT_QUANTITY, DEFAULT_COLOR, Medium, 0);
    BlankIffAllWhitespace(f.name);
    OnlyNameFlagged(f);
  }

  /** A form with a blank name, due daily and not quantity based fails only on its name. */
  lemma OnlyNameFlagged(f: FormData)
    requires Trim(f.name) == [] && f.frequency == Daily && !f.isQuantityBased
    ensures forall k :: k in ValidateForm(f) <==> k == NameField
  {
    var e := ValidateForm(f);
    assert NameField in e && QuantityField !in e && DaysField !in e;
    forall k
      ensures k in e <==> k == NameField
    {
      match k
      case NameField =>
      case QuantityField =>
      case DaysField =>
      case _ =>
    }
  }

  // ---- handleInputChange ----

  /** The inputs wired to `handleInputChange`, by their `name`, and the
      days, whose error shares the map. */
  datatype Field = NameField | DescriptionField | FrequencyField | IsQuantityBasedField | QuantityField | DaysField | PriorityField

  /** A change event: the checkbox reports `checked`, the others `value`;
      the priority buttons send a synthetic event named `priority`. */
  datatype Change =
    | NameInput(value: string)
    | DescriptionInput(value: string)
    | FrequencyChoice(frequency: Frequency)
    | QuantityBasedCheckbox(checked: bool)
    | QuantityInput(quantity: int)
    | PriorityChoice(priority: Priority)

  function ChangedField(c: Change): Field {
    match c
    case NameInput(_) => NameField
    case DescriptionInput(_) => DescriptionField
    case FrequencyChoice(_) => FrequencyField
    case QuantityBasedCheckbox(_) => IsQuantityBasedField
    case QuantityInput(_) => QuantityField
    case PriorityChoice(_) => PriorityField
  }

  /** `handleInputChange`: the named field takes the event's value (its
      `checked` state for the checkbox), every other field is kept, and an
      error shown for that field is cleared (a cleared error is an absent key). */
  function InputChange(form: FormData, errors: map<Field, string>, c: Change): (r: (FormData, map<Field, string>))
    ensures c.NameInput? ==> r.0 == form.(name := c.value)
    ensures c.DescriptionInput? ==> r.0 == form.(description := c.value)
    ensures c.FrequencyChoice? ==> r.0 == form.(frequency := c.frequency)
    ensures c.QuantityBasedCheckbox? ==> r.0 == form.(isQuantityBased := c.checked)
    ensures c.QuantityInput? ==> r.0 == form.(quantity := c.quantity)
    ensures c.PriorityChoice? ==> r.0 == form.(priority := c.priority)
    ensures ChangedField(c) !in r.1
    ensures forall k :: k != ChangedField(c) ==> (k in r.1 <==> k in errors) && (k in errors ==> r.1[k] == errors[k])
  {
    var form' := match c
      case NameInput(v) => form.(name := v)
      case DescriptionInput(v) => form.(description := v)
      case FrequencyChoice(fr) => form.(frequency := fr)
      case QuantityBasedCheckbox(b) => form.(isQuantityBased := b)
      case QuantityInput(q) => form.(quantity := q)
      case PriorityChoice(pr) => form.(priority := pr);
    (form', errors - {ChangedField(c)})
  }

  // ---- handleDayToggle ----

  /** `days.filter(d => d !== day)`. */
  function RemoveDay(days: seq<Weekday>, day: Weekday): (r: seq<Weekday>)
    ensures |r| <= |days|
    ensures forall w :: w in r <==> w in days && w != day
  {
    if days == [] then []
    else if days[0] == day then RemoveDay(days[1..], day)
    else [days[0]] + RemoveDay(days[1..], day)
  }

  /** Removing a day that is absent changes nothing. */
  lemma {:induction false} RemoveAbsentDay(days: seq<Weekday>, day: Weekday)
    requires day !in days
    ensures RemoveDay(days, day) == days
  {
    if days != [] {
      RemoveAbsentDay(days[1..], day);
    }
  }

  /** The filter distributes over concatenation, so order is kept. */
  lemma {:induction false} RemoveDayAppend(a: seq<Weekday>, b: seq<Weekday>, day: Weekday)
    ensures RemoveDay(a + b, day) == RemoveDay(a, day) + RemoveDay(b, day)
  {
    if a == [] {
      assert a + b == b;
    } else {
      assert (a + b)[0] == a[0];
      assert (a + b)[1..] == a[1..] + b;
      RemoveDayAppend(a[1..], b, day);
    }
  }

  /** `handleDayToggle(day)`: a selected day is removed with all its copies,
      an unselected one is appended; every other day keeps its membership. */
  function DayToggle(days: seq<Weekday>, day: Weekday): (r: seq<Weekday>)
    ensures day in r <==> day !in days
    ensures forall w :: w != day ==> (w in r <==> w in days)
    ensures day !in days ==> r == days + [day]
  {
    if day in days then RemoveDay(days, day) else days + [day]
  }

  /** Toggling a day twice restores which days are selected; when the day was
      not selected, it restores the list itself. */
  lemma DayToggleTwice(days: seq<Weekday>, day: Weekday)
    ensures forall w :: w in DayToggle(DayToggle(days, day), day) <==> w in days
    ensures day !in days ==> DayToggle(DayToggle(days, day), day) == days
  {
    if day !in days {
      RemoveDayAppend(days, [day], day);
      RemoveAbsentDay(days, day);
      assert RemoveDay([day], day) == [];
    }
  }

  // ---- validateForm ----

  const NAME_REQUIRED: string := "Habit name is required"
  const QUANTITY_TOO_SMALL: string := "Quantity must be greater than 0"
  const DAYS_REQUIRED: string := "Please select at least one day"

  predicate NeedsDays(f: Frequency) {
    f == Weekly || f == Custom
  }

  /** Whether `validateForm` flags field `k`. */
  predicate Flagged(form: FormData, k: Field) {
    match k
    case NameField => Trim(form.name) == []
    case QuantityField => form.isQuantityBased && form.quantity < 1
    case DaysField => NeedsDays(form.frequency) && form.days == []
    case _ => false
  }

  function Message(k: Field): string {
    match k
    case NameField => NAME_REQUIRED
    case QuantityField => QUANTITY_TOO_SMALL
    case _ => DAYS_REQUIRED
  }

  /** `validateForm`'s error record: a blank trimmed name, a quantity under 1
      on a quantity-based habit, and no days on a weekly or custom habit are
      each flagged under their own field with their message, and nothing
      else is. */
  function ValidateForm(form: FormData): (errors: map<Field, string>)
    ensures NameField in errors <==> Trim(form.name) == []
    ensures QuantityField in errors <==> form.isQuantityBased && form.quantity < 1
    ensures DaysField in errors <==> NeedsDays(form.frequency) && form.days == []
    ensures DescriptionField !in errors && FrequencyField !in errors && IsQuantityBasedField !in errors
    ensures PriorityField !in errors
    ensures forall k :: k in errors ==> errors[k] == Message(k)
  {
    map k | k in {NameField, QuantityField, DaysField} && Flagged(form, k) :: Message(k)
  }

  /** The form submits exactly when none of the three problems is present. */
  predicate FormAccepted(form: FormData) {
    ValidateForm(form) == map[]
  }

  lemma FormAcceptedIff(form: FormData)
    ensures FormAccepted(form) <==>
      Trim(form.name) != [] && !(form.isQuantityBased && form.quantity < 1)
      && !(NeedsDays(form.frequency) && form.days == [])
  {
    if !FormAccepted(form) {
      var k :| k in ValidateForm(form);
    }
  }

  /** Selecting a day on a weekly habit that had none lifts the days problem. */
  lemma DayToggleSatisfiesDays(form: FormData, day: Weekday)
    requires form.days == []
    ensures DaysField !in ValidateForm(form.(days := DayToggle(form.days, day)))
  {
  }

  // ---- icon selection ----

  /** The preview below the grid: `habitIcons[selectedIcon]` when it exists. */
  function SelectedPreview(form: FormData): (r: Option<HabitIcon>)
    ensures r.Some? <==> 0 <= form.selectedIcon < |HABIT_ICONS|
  {
    if 0 <= form.selectedIcon < |HABIT_ICONS| then Some(HABIT_ICONS[form.selectedIcon]) else None
  }

  /** The click on the `k`-th shown icon as written: it stores `k`, a position
      in the filtered list, in `selectedIcon`, which is read against the
      whole catalogue. */
  function SelectIconAsWritten(form: FormData, filter: string, k: nat): (r: FormData)
    requires k < |FilteredIcons(filter)|
    ensures r.selectedIcon == k && r == form.(selectedIcon := r.selectedIcon)
  {
    form.(selectedIcon := k)
  }

  /** Without a search the stored position is the catalogue position, so the
      preview shows the icon that was clicked. */
  lemma SelectionAgreesWithoutFilter(form: FormData, k: nat)
    requires k < |FilteredIcons("")|
    ensures SelectedPreview(SelectIconAsWritten(form, "", k)) == Some(FilteredIcons("")[k])
  {
    EmptyFilterShowsAll();
  }

  lemma CatalogueStart()
    ensures HABIT_ICONS[0] == HabitIcon(HeartPulse, "Health", "Wellness")
    ensures HABIT_ICONS[1] == HabitIcon(Brain, "Focus", "Wellness")
    ensures HABIT_ICONS[2] == HabitIcon(Dumbbell, "Exercise", "Fitness")
  {
  }

  /** A word none of whose candidate starting characters lower-cases to the
      search's first character does not contain the search. */
  lemma NoStartMatch(s: string, f: string)
    requires |f| > 0
    requires forall i :: 0 <= i <= |s| - |f| ==> LowerChar(s[i]) != f[0]
    ensures !Contains(ToLower(s), f)
  {
    var t := ToLower(s);
    forall i | 0 <= i <= |t| - |f|
      ensures !OccursAt(t, f, i)
    {
      assert t[i..i + |f|][0] == t[i] != f[0];
    }
  }

  /** "fitness" occurs in neither word of the first two catalogue entries. */
  lemma FirstTwoMissFitness()
    ensures !IconMatches(HABIT_ICONS[0], "fitness") && !IconMatches(HABIT_ICONS[1], "fitness")
  {
    CatalogueStart();
    NoStartMatch("Health", "fitness");
    NoStartMatch("Focus", "fitness");
    NoStartMatch("Wellness", "fitness");
  }

  /** The third entry's category is Fitness. */
  lemma ThirdMatchesFitness()
    ensures IconMatches(HABIT_ICONS[2], "fitness")
  {
    assert ToLower("Fitness") == "fitness";
    assert OccursAt(ToLower("Fitness"), "fitness", 0);
  }

  /** With the search "fitness" the first icon shown is Exercise, but clicking
      it selects Health, the first icon of the catalogue. */
  lemma SelectionMismatchUnderFilter(form: FormData)
    ensures |FilteredIcons("fitness")| > 0
    ensures FilteredIcons("fitness")[0] == HABIT_ICONS[2] && HABIT_ICONS[2].name == "Exercise"
    ensures SelectIconAsWritten(form, "fitness", 0).selectedIcon == 0
    ensures SelectedPreview(SelectIconAsWritten(form, "fitness", 0)) == Some(HABIT_ICONS[0]) && HABIT_ICONS[0].name == "Health"
  {
    FirstTwoMissFitness();
    ThirdMatchesFitness();
    var f := "fitness";
    var keep := KeptBy(f);
    assert MatchingFrom(HABIT_ICONS, keep, 0) == MatchingFrom(HABIT_ICONS, keep, 1) == MatchingFrom(HABIT_ICONS, keep, 2);
    assert MatchingFrom(HABIT_ICONS, keep, 2)[0] == 2;
    assert MatchingIndices(f)[0] == 2;
    assert FilteredIcons(f)[0] == HABIT_ICONS[2];
    CatalogueStart();
  }

  /** The click on the `k`-th shown icon, storing its catalogue position. */
  function SelectIcon(form: FormData, filter: string, k: nat): (r: FormData)
    requires k < |FilteredIcons(filter)|
    ensures SelectedPreview(r) == Some(FilteredIcons(filter)[k])
    ensures r == form.(selectedIcon := r.selectedIcon)
  {
    form.(selectedIcon := MatchingIndices(filter)[k])
  }
}
