# Habit tracker scheduling and statistics, in Dafny

This project models the habit-scheduling and statistics logic of a habit tracker. The logic sits in an Express/Mongoose backend and a React frontend. The model covers:

- the stored habit, its schema rules and the creation of a habit;
- the progress upsert of `updateProgress` and the statistics of `getHabitStats`;
- the page logic that decides whether a habit is due on a day (four variants);
- the streak walks of the statistics, profile and details pages, the rates and the weekly breakdown;
- the completion toggles of the habit list and the calendar, and the habit form's day toggle, validation, defaults and icon search;
- the browser notification service: the reminder plan, the timer map keyed by habit and time, the daily 07:00 check, and the stored notification list with its three-day retention;
- the notifications page, the home page's stat cards and the sidebar's active entry.

Dates are integers: an `Instant` counts milliseconds since the epoch, and a calendar day is `Instant / DAY_MS`. UTC and local time coincide. The weekday of day `d` is `(d + 4) % 7`, with Sunday 0, because day 0 (1970-01-01) is a Thursday. The `yyyy-MM-dd` strings the code compares are modelled as their day numbers. RFC 3339, section 5.1, states that for the full-date format of its section 5.6 string order is chronological order, so the two comparisons agree. "Now", generated ids and the randomly chosen late message are parameters.

Code that changes state in place is modelled as classes and methods with loop invariants:

- `HabitController.HabitDocument.Record` changes the progress array;
- the statistics and streak loops are methods;
- `NotificationService.Service` holds the timer map, the sent keys and the list.

Each of these methods is proved against a specification function, and the lemmas about those functions carry the properties. Pure code is modelled as functions and lemmas.

## Model

| member | source | states |
|---|---|---|
| HabitModel.DayErrors | Backend/models/Habit.js:23-26 | no error exactly when every day is one of the seven weekday tokens; each error names a position of the list |
| HabitModel.ProgressErrors | Backend/models/Habit.js:57-61 | no error exactly when every progress entry has a date |
| HabitModel.CastDays | Backend/models/Habit.js:23-26 | each accepted token becomes its weekday, in order |
| HabitModel.CastEntry | Backend/models/Habit.js:57-70 | an entry keeps its date and defaults to not completed and 0 done |
| HabitModel.CastProgress | Backend/models/Habit.js:57-70 | the array keeps its length and order, each entry cast with its defaults |
| HabitModel.SchemaErrorsEmpty | Backend/models/Habit.js:3-73 | a body has no validation error exactly when it meets every path's rule |
| HabitModel.Cast | Backend/models/Habit.js:3-73 | an accepted body becomes a valid habit with the generated id and the given user |
| HabitModel.Validate | Backend/models/Habit.js:3-73 | creation succeeds exactly when the schema accepts the body, and a failure lists at least one error |
| HabitModel.ValidateIsCast | Backend/models/Habit.js:3-73 | a body the schema accepts is stored as its cast, with the defaults filled in |
| HabitModel.UserErrorIffMissing | Backend/models/Habit.js:52-56 | the missing-user error is reported exactly when the body has no user |
| HabitModel.ValidateDefaults | Backend/models/Habit.js:13-51 | absent fields take the declared defaults: start now, not quantity based, quantity 1, medium, the default colour |
| HabitModel.ValidateProgressDefaults | Backend/models/Habit.js:57-70 | every progress entry is kept, and an entry without `completed` or `quantityDone` is stored as not completed with 0 done |
| HabitModel.SchemaAllowsEmptyDaysAndNegativeQuantityDone | Backend/models/Habit.js:18-69 | the schema accepts a weekly habit without days and a negative done quantity |
| HabitController.CreateHabitData | Backend/controllers/habitController.js:11-29 | the user is always the authenticated one; metric becomes `times` exactly for a quantity-based body without one; nothing else changes |
| HabitController.CreateHabit | Backend/controllers/habitController.js:7-31 | a created habit belongs to the caller and is valid; a failure never blames a missing user |
| HabitController.Upserted | Backend/controllers/habitController.js:124-135 | the first entry of the same UTC day is replaced at its index, otherwise the entry is appended; all other entries are kept |
| HabitController.UpsertedLookup | Backend/controllers/habitController.js:124-135 | read by day, the log afterwards gives the new entry for its day and the old entry for every other day |
| HabitController.UpsertedOnePerDay | Backend/controllers/habitController.js:124-135 | at most one entry per day is preserved, and the log grows by at most one |
| HabitController.HabitDocument.Record | Backend/controllers/habitController.js:129-135 | the in-place update leaves exactly the upserted log |
| HabitController.FindHabit | Backend/controllers/habitController.js:114-122 | returns a document of that id owned by that user, or none when no such document exists |
| HabitController.EntryOf | Backend/controllers/habitController.js:131-134 | the stored entry has the body's date, completed only when the body says true, and 0 done by default |
| HabitController.UpdateProgress | Backend/controllers/habitController.js:111-139 | not found without a document; with a dated body the document's log becomes the upserted log |
| HabitController.StreakStep | Backend/controllers/habitController.js:172-181 | one iteration keeps `temp <= best` and `current <= best`, never lowers best or current, and resets temp on a miss |
| HabitController.WalkPrefix | Backend/controllers/habitController.js:172-181 | the counters stay ordered and best never drops along a log |
| HabitController.SharedStreaks | Backend/controllers/habitController.js:161-182 | the counters after all habits, with temp shared across habits, are ordered |
| HabitController.SharedStreaksBound | Backend/controllers/habitController.js:154-182 | even shared, temp and best never exceed the number of completed entries |
| HabitController.PerHabitStreaks | Backend/controllers/habitController.js:170-181 | the corrected counters, with temp reset per habit, are ordered |
| HabitController.PerHabitBestIsLongestRun | Backend/controllers/habitController.js:170-181 | with the reset, the best streak is the longest run of completed entries of any one habit |
| HabitController.SharedStreakCounterexample | Backend/controllers/habitController.js:158-181 | two habits with one completed day each give a best streak of 2 as written, 1 with the reset |
| HabitController.WindowRate | Backend/controllers/habitController.js:184-186 | a window's rounded completion rate is at most 100 |
| HabitController.StreakLoop | Backend/controllers/habitController.js:172-181 | the loop over one habit's log ends with the counters of WalkPrefix |
| HabitController.GetHabitStats | Backend/controllers/habitController.js:144-236 | active habits is the count; rate is the 7-day rate and at most 100; the change is the difference from the week before, within -100..100; achievements is a tenth of the recent completions; new achievements are the achievements capped at 2 (0 without achievements); current streak is at most best streak |
| ProgressLog.SortNewestFirst | Backend/controllers/habitController.js:170 | the sort orders the log newest first and is a permutation of it |
| ProgressLog.Filter | Backend/controllers/habitController.js:162-163 | `filter` keeps exactly the entries satisfying the condition, and its length is their count |
| ProgressLog.CountSorted | Backend/controllers/habitController.js:164-167 | sorting does not change how many entries satisfy a condition |
| ProgressLog.FindDayIndex | Backend/controllers/habitController.js:125-127 | the index of the first entry of the day, or -1 when there is none |
| ProgressLog.FindDayIndexIs | Backend/controllers/habitController.js:125-127 | any first index of the day is the result |
| ProgressLog.EntryOnDay | frontend/src/components/HabitList.jsx:124-126 | an entry of the day is found exactly when one exists, and it is of that day |
| ProgressLog.RoundPercent | Backend/controllers/habitController.js:184-186 | the nearest whole percentage with halves rounded up, 0 for an empty whole, at most 100 for a part of the whole |
| ProgressLog.LongestRunIsMax | Backend/controllers/habitController.js:172-181 | the longest run is the largest run of completed entries, and it is attained |
| ProgressLog.DatedRun | frontend/src/components/Statistics.jsx:158-175 | a streak ending at a position is never longer than the run of completed entries ending there |
| ProgressLog.DatedRunIsRun | frontend/src/components/Statistics.jsx:158-175 | a streak is a block of completed entries, each one day (by the given day difference) before the next, that cannot be extended back; it is 0 exactly after an uncompleted entry or at the start |
| ProgressLog.BestDatedRun | frontend/src/components/Statistics.jsx:177 | the best streak is at least the streak ending at the current position and at most the longest run of completed entries |
| ProgressLog.BestDatedRunIsMax | frontend/src/components/Statistics.jsx:177 | the best streak is the largest streak ending anywhere in the prefix, and some streak attains it |
| Statistics.DayDiff | frontend/src/components/Statistics.jsx:165 | the whole number of days between two instants, truncated |
| Statistics.Walk | frontend/src/components/Statistics.jsx:154-178 | along the walk, current streak <= max streak <= completions |
| Statistics.WalkWithinRuns | frontend/src/components/Statistics.jsx:154-178 | the current streak is a block of completed entries one whole day apart that cannot be extended back, and 0 exactly after an uncompleted entry; the max streak is the largest current streak along the walk and is attained; both are within the runs of completed entries |
| Statistics.WalkIsDatedRun | frontend/src/components/Statistics.jsx:154-178 | the walk's current streak is the dated run (truncated day difference) ending at the position, its max streak the best dated run so far, and its last completed date that of the latest completed entry |
| Statistics.WalkCompletions | frontend/src/components/Statistics.jsx:157-159 | `habitCompletions` is exactly the number of completed entries |
| Statistics.WalkHabit | frontend/src/components/Statistics.jsx:149-178 | the `forEach` loop ends with the counters of the walk over the whole log |
| Statistics.WalkOf | frontend/src/components/Statistics.jsx:140-178 | over the log sorted newest first, current streak is the dated run at its end, max streak the best dated run, completions the number of completed entries; all bounded by the log length |
| Statistics.LongestStreak | frontend/src/components/Statistics.jsx:184 | 0 without habits (with LongestIsMaximum and LongestAttained: the largest `habitMaxStreak`) |
| Statistics.ActiveStreak | frontend/src/components/Statistics.jsx:207-210 | the active streak is at most the longest streak |
| Statistics.StreaksAreMaxima | frontend/src/components/Statistics.jsx:183-210 | the longest and the active streak are the maxima of every habit's max and final streak: none exceeds them, and some habit reaches each, or there are no habits and both are 0 |
| Statistics.LongestIsMaximum | frontend/src/components/Statistics.jsx:184 | no habit's maximum run exceeds the longest streak |
| Statistics.ActiveIsMaximum | frontend/src/components/Statistics.jsx:207-209 | no habit's final run exceeds the active streak |
| Statistics.LongestAttained | frontend/src/components/Statistics.jsx:184 | with at least one habit, some habit's maximum run equals the longest streak |
| Statistics.ActiveAttained | frontend/src/components/Statistics.jsx:207-209 | with at least one habit, some habit's final run equals the active streak |
| Statistics.AllStreaks | frontend/src/components/Statistics.jsx:186-187 | one max streak per habit, in order |
| Statistics.TotalCompletions | frontend/src/components/Statistics.jsx:180-181 | the total completions are at least the longest streak |
| Statistics.TotalEntries | frontend/src/components/Statistics.jsx:233-236 | the logged entries are at least the completions |
| Statistics.Consistency | frontend/src/components/Statistics.jsx:200-205 | the leader's completions are among its entries, and its name is a habit's name or empty |
| Statistics.ConsistencyIsBest | frontend/src/components/Statistics.jsx:200-205 | no named habit with entries has a higher rate than the leader |
| Statistics.TallyOn | frontend/src/components/Statistics.jsx:218-229 | a day's total is the number of habits due at its midnight, and its completed count is at most that |
| Statistics.WeeklyData | frontend/src/components/Statistics.jsx:213-230 | seven tallies from the Sunday to the Saturday of the current week |
| Statistics.HeatmapColor | frontend/src/components/Statistics.jsx:46-54 | as written, a day with nothing due is the top band, as is a rate of at least 90% |
| Statistics.HeatmapEmptyDayIsTopBand | frontend/src/components/Statistics.jsx:47-54 | a day with tally 0/0 is coloured as fully done, and gray in the corrected version |
| Statistics.Band | frontend/src/components/Statistics.jsx:50-54 | the band is 0..4, and 0 exactly when nothing is completed |
| Statistics.BandMonotone | frontend/src/components/Statistics.jsx:50-54 | completing more never lowers the band |
| Statistics.HeatmapColorCorrected | frontend/src/components/Statistics.jsx:47-54 | gray exactly for a missing day, nothing due or nothing done; otherwise the band's colour |
| Statistics.HeatmapColorAgreesWithData | frontend/src/components/Statistics.jsx:47-54 | for a missing day or a day with something due, the colour as written equals the corrected colour |
| Statistics.LastN | frontend/src/components/Statistics.jsx:252 | `slice(-n)` is the last `n` elements, or all of them |
| Statistics.PrioritySum | frontend/src/components/Statistics.jsx:134-137 | the three priority counts add up to the number of habits |
| Statistics.CountByPriority | frontend/src/components/Statistics.jsx:134-137 | the loop counts each priority exactly |
| Statistics.CalculateStats | frontend/src/components/Statistics.jsx:121-254 | every figure equals its specification, the priority tally being the three per-priority counts; active <= longest <= total completions; the rates are at most 100; at most 15 streaks are kept |
| Statistics.HabitsLoop | frontend/src/components/Statistics.jsx:139-211 | the loop over the habits yields each running total as its specification over the whole list: completions, due and done today, longest and active streak, best habit, streak list |
| Statistics.VisitHabit | frontend/src/components/Statistics.jsx:140-210 | one habit's pass adds its completions and today's due and done counts, raises the longest and active streak to its own, appends its streak and keeps the better best habit |
| Statistics.TotalCompletionsBound | frontend/src/components/Statistics.jsx:180-240 | active streak <= longest streak <= completions <= entries |
| Profile.RoundDays | frontend/src/components/Profile.jsx:149 | the nearest whole number of days, halves rounded up |
| Profile.StreakWalkPrefix | frontend/src/components/Profile.jsx:142-161 | current <= max <= number of completed entries along the walk |
| Profile.StreakWalkIsDatedRun | frontend/src/components/Profile.jsx:142-161 | the walk's current streak is the dated run under the rounded day difference, its max the best such run, and its last date that of the latest completed entry |
| Profile.HabitStreak | frontend/src/components/Profile.jsx:131-164 | 0 for an empty log; the best dated run, under the rounded day difference, of the log sorted newest first; never more than the completed entries |
| Profile.HabitStreakIsLongestRun | frontend/src/components/Profile.jsx:131-164 | no dated run of the sorted log is longer than the habit streak, and one of exactly that length exists: completed entries, each one rounded day before the next |
| Profile.CalculateHabitStreak | frontend/src/components/Profile.jsx:131-164 | the loop returns HabitStreak of the log |
| Profile.DayDiffsAgree | frontend/src/components/Profile.jsx:149 | for instants a whole number of days apart, rounding and truncation agree |
| Profile.WalksAgree | frontend/src/components/Profile.jsx:138-161 | on entries logged at one time of day, the profile and statistics walks keep equal counters |
| Profile.StreaksAgree | frontend/src/components/Profile.jsx:131-164 | for such a log, the profile streak equals the statistics max streak |
| Profile.DayDiffsDiffer | frontend/src/components/Profile.jsx:149 | taken older entry first, as the walks do: 18 hours apart the profile counts 1 day and the statistics page 0 (42 hours: 2 and 1), half a day apart both count 0; two completed entries 18 hours apart are a streak of 2 on the profile and 1 on the statistics page |
| Profile.MaxHabitStreakIsMax | frontend/src/components/Profile.jsx:110-112 | the streak count is the largest habit streak, and it is attained |
| Profile.MaxHabitStreakBound | frontend/src/components/Profile.jsx:110-112 | no habit's streak exceeds the streak count |
| Profile.MaxHabitStreakAttained | frontend/src/components/Profile.jsx:110-112 | with at least one habit, some habit's streak equals the streak count |
| Profile.FetchUserStats | frontend/src/components/Profile.jsx:90-121 | due and completed counts are the counts of the profile's rule, completed <= due, and the streak count is the maximum |
| Profile.TodayProgressText | frontend/src/components/Profile.jsx:454-456 | `0%` when nothing is due, otherwise the digits of the rounded percentage followed by `%` |
| Profile.EmailCheckMatchesPattern | frontend/src/components/Profile.jsx:259-260 | the direct check accepts exactly the strings of the form `a@b.c` without spaces or extra `@` |
| Profile.IsEmailMatches | frontend/src/components/Profile.jsx:259-260 | every string the direct check accepts has the form `a@b.c` with plain parts |
| Profile.PatternIsEmail | frontend/src/components/Profile.jsx:259-260 | every string of the form `a@b.c` with plain parts passes the direct check |
| Profile.ValidateEdit | frontend/src/components/Profile.jsx:250-288 | each error exactly when its check is the first to fail, in code order; success sends the fields as typed, with passwords only when a new one is given |
| Profile.EmailNotBlank | frontend/src/components/Profile.jsx:253-263 | an address that passes the pattern is never blank |
| HabitDetails.StreakFrom | frontend/src/components/HabitDetails.jsx:27-41 | the loop's streak grows by at most the number of completed entries it visits |
| HabitDetails.CurrentStreak | frontend/src/components/HabitDetails.jsx:11-41 | 0 for an empty log, never more than the completed entries |
| HabitDetails.StreakFromCountsToBreak | frontend/src/components/HabitDetails.jsx:27-41 | the loop returns its counter plus the completed entries before the first entry that meets the break condition against the last counted day |
| HabitDetails.LastCountedShift | frontend/src/components/HabitDetails.jsx:37-40 | resuming one entry later with the day it leaves behind gives the same last counted days |
| HabitDetails.CurrentStreakCountsToBreak | frontend/src/components/HabitDetails.jsx:11-41 | the current streak is the number of completed entries, newest first, before the first entry dated before today that is not completed or more than a day from the last counted day |
| HabitDetails.NoBreakFromToday | frontend/src/components/HabitDetails.jsx:27-41 | entries of today or later never stop the walk, so each completed one counts |
| HabitDetails.MissedBeforeToday | frontend/src/components/HabitDetails.jsx:31-35 | a newest entry from before today that is not completed gives a streak of 0 |
| HabitDetails.ThirtyDayRate | frontend/src/components/HabitDetails.jsx:43-57 | the denominator is the number of entries from 30 days ago on; the numerator the number of those that are completed by the panel's rule (flag or quantity reached) |
| HabitDetails.StreakLoop | frontend/src/components/HabitDetails.jsx:26-41 | the loop with its early exit returns the streak StreakFrom defines from the start of the sorted log, with today as the last counted day |
| HabitDetails.StreakStops | frontend/src/components/HabitDetails.jsx:31-34 | at the end of the log, or at an entry meeting the break condition, the walk returns its counter |
| HabitDetails.CalculateStats | frontend/src/components/HabitDetails.jsx:11-60 | returns CurrentStreak and the 30-day rate of the habit, the empty log taking the early return |
| HabitDetails.RecentActivity | frontend/src/components/HabitDetails.jsx:186-188 | the seven newest entries (all when fewer), newest first, drawn from the log, none older than an entry left out |
| HabitToggle.TogglePayload | frontend/src/components/HabitList.jsx:55-65 | the body dates the day, negates the day's flag, and sends the target quantity when completing and 0 otherwise |
| HabitToggle.ToggleFlips | frontend/src/components/HabitList.jsx:55-65 | after the server applies it, the day's flag is flipped, its done quantity matches, and other days are unchanged |
| HabitToggle.ToggleTwiceRestores | frontend/src/components/HabitList.jsx:55-65 | two toggles of the same day restore its flag |
| HabitToggle.ReplaceById | frontend/src/components/HabitList.jsx:67 | each habit with that id is replaced by the returned habit, the others kept in place |
| HabitCalendar.MonthLength | frontend/src/components/HabitCalendar.jsx:27-31 | a month has 28 to 31 days |
| HabitCalendar.MonthGrid | frontend/src/components/HabitCalendar.jsx:27-31 | whole weeks from a Sunday to a Saturday, four to six of them, consecutive days, covering the month |
| HabitCalendar.WeeksAround | frontend/src/components/HabitCalendar.jsx:27-31 | for a month of 28 to 31 days from any first day, the grid runs from the Sunday before to the Saturday after, in four to six whole weeks of consecutive days |
| HabitCalendar.StartedByDay | frontend/src/components/HabitCalendar.jsx:34-39 | comparing midnights is comparing calendar days; no start date means no gate |
| HabitCalendar.HabitsForDate | frontend/src/components/HabitCalendar.jsx:32-54 | exactly the habits started by the day and scheduled on its weekday |
| HabitCalendar.CompletedHabits | frontend/src/components/HabitCalendar.jsx:55-69 | the number of positions in the list whose habit is started by the day and has a completed entry on it; at most the number of habits, 0 for an empty list |
| Statistics.CountHabitsIndices | frontend/src/components/HabitCalendar.jsx:55-69 | counting habits by a condition is counting the list positions whose habit meets it |
| HabitCalendar.CompletedWithinDue | frontend/src/components/HabitCalendar.jsx:32-69 | when completed habits are scheduled, completed <= due |
| HabitCalendar.CompletedCanExceedDue | frontend/src/components/HabitCalendar.jsx:55-69 | the schedule is ignored when counting completed habits, so a cell can read 2 completed of 1 due |
| HabitCalendar.CalendarToggle | frontend/src/components/HabitCalendar.jsx:71-91 | no request exactly for a future day; otherwise the shared toggle body for the selected day |
| HabitList.RemoveById | frontend/src/components/HabitList.jsx:45 | exactly the habits of other ids are kept |
| HabitList.RemoveByIdAppend | frontend/src/components/HabitList.jsx:45 | the deletion distributes over concatenation, so order is kept |
| HabitList.RemoveAbsentId | frontend/src/components/HabitList.jsx:45 | a list without that id is unchanged |
| HabitList.ListToggle | frontend/src/components/HabitList.jsx:53-65 | the list's toggle is the shared toggle for today's UTC day |
| HabitList.ListToggleFlipsBadge | frontend/src/components/HabitList.jsx:122-127 | the toggle turns today's badge over and leaves other days alone |
| HabitList.BadgeIgnoresQuantity | frontend/src/components/HabitList.jsx:124-127 | a met quantity with the flag off shows as not completed |
| HabitList.CatalogueHasNoCircle | frontend/src/components/NewHabitForm.jsx:45-68 | no catalogue entry uses the fallback glyph |
| HabitList.HabitIconAt | frontend/src/components/HabitList.jsx:75-77 | the catalogue's icon in range, the fallback circle exactly out of range |
| HabitList.ListShowsSelectedIcon | frontend/src/components/HabitList.jsx:123 | with the corrected selection, the list shows the icon that was clicked |
| HabitList.ListShowsWrongIconAsWritten | frontend/src/components/HabitList.jsx:123 | as written, the first icon under "fitness" is Exercise's, but the list shows Health's |
| HabitForm.IconFilter | frontend/src/components/NewHabitForm.jsx:251 | the stored search is the typed text with each character lower-cased (A-Z to a-z, others kept): same length, no upper-case letter |
| HabitForm.MatchingFrom | frontend/src/components/NewHabitForm.jsx:258-263 | the positions of the kept icons, increasing, and all of them |
| HabitForm.FilterIcons | frontend/src/components/NewHabitForm.jsx:258-262 | the kept icons in catalogue order, exactly those matching |
| HabitForm.KeptAreListed | frontend/src/components/NewHabitForm.jsx:258-262 | the icons at the matching positions are exactly the icons the filter keeps |
| HabitForm.MatchingFromAll | frontend/src/components/NewHabitForm.jsx:258-262 | the empty search keeps every position |
| HabitForm.EmptyFilterKeepsAll | frontend/src/components/NewHabitForm.jsx:258-262 | an empty search shows the whole list unchanged |
| HabitForm.EmptyFilterShowsAll | frontend/src/components/NewHabitForm.jsx:45-68 | an empty search shows all 22 catalogue icons in order |
| HabitForm.InitialForm | frontend/src/components/NewHabitForm.jsx:92-105 | every field is its default unless the initial data provides it |
| HabitForm.NewFormDefaults | frontend/src/components/NewHabitForm.jsx:92-105 | a new form is daily, with no days, quantity 1, medium, not quantity based, and only the name is flagged |
| HabitForm.InputChange | frontend/src/components/NewHabitForm.jsx:111-120 | the named field takes the value (`checked` for the checkbox, the chosen level for the priority buttons), its error is cleared, and the other errors are kept |
| HabitForm.RemoveDay | frontend/src/components/NewHabitForm.jsx:126 | exactly the other days are kept |
| HabitForm.RemoveAbsentDay | frontend/src/components/NewHabitForm.jsx:126 | removing an absent day changes nothing |
| HabitForm.RemoveDayAppend | frontend/src/components/NewHabitForm.jsx:126 | the removal distributes over concatenation, so order is kept |
| HabitForm.DayToggle | frontend/src/components/NewHabitForm.jsx:122-129 | the day's membership flips, other days keep theirs, and an absent day is appended at the end |
| HabitForm.DayToggleTwice | frontend/src/components/NewHabitForm.jsx:122-129 | two toggles restore membership, and the exact list when the day was absent |
| HabitForm.ValidateForm | frontend/src/components/NewHabitForm.jsx:131-144 | name flagged exactly when blank after trimming; quantity exactly when quantity based and under 1; days exactly when weekly or custom with none |
| HabitForm.FormAcceptedIff | frontend/src/components/NewHabitForm.jsx:131-144 | the form submits exactly when none of the three problems is present |
| HabitForm.DayToggleSatisfiesDays | frontend/src/components/NewHabitForm.jsx:122-141 | selecting a day on an empty list lifts the days problem |
| HabitForm.SelectedPreview | frontend/src/components/NewHabitForm.jsx:295-302 | a preview exactly when the stored position is in the catalogue |
| HabitForm.SelectIconAsWritten | frontend/src/components/NewHabitForm.jsx:268 | as written, the click stores the position in the filtered list |
| HabitForm.SelectionAgreesWithoutFilter | frontend/src/components/NewHabitForm.jsx:268-302 | without a search, the preview is the clicked icon |
| HabitForm.CatalogueStart | frontend/src/components/NewHabitForm.jsx:46-48 | the first three catalogue entries |
| HabitForm.FirstTwoMissFitness | frontend/src/components/NewHabitForm.jsx:46-47 | "fitness" matches neither Health nor Focus |
| HabitForm.ThirdMatchesFitness | frontend/src/components/NewHabitForm.jsx:48 | "fitness" matches Exercise through its category |
| HabitForm.SelectionMismatchUnderFilter | frontend/src/components/NewHabitForm.jsx:258-302 | as written, a click on the first icon under "fitness" (Exercise) previews Health |
| HabitForm.SelectIcon | frontend/src/components/NewHabitForm.jsx:268 | corrected: the preview is the clicked icon under any search |
| NotificationService.Retain | frontend/src/services/notificationService.js:93-97 | exactly the notifications newer than three days are kept, in order |
| NotificationService.RetainAppend | frontend/src/services/notificationService.js:95-97 | retention distributes over concatenation |
| NotificationService.RetainIdempotent | frontend/src/services/notificationService.js:95-97 | retaining again at the same time changes nothing |
| NotificationService.TodaysHabits | frontend/src/services/notificationService.js:259 | exactly the habits the service's rule calls due today |
| NotificationService.DailyCheckDelay | frontend/src/services/notificationService.js:55-64 | the delay is in [0, 24 h) and ends at 07:00 |
| NotificationService.DailySummary | frontend/src/services/notificationService.js:119-131 | none exactly when no habit is due; otherwise a `daily-summary` without habit id stamped now |
| NotificationService.Candidates | frontend/src/services/notificationService.js:145-206 | four reminders at -30, -5, 0 and +15 minutes, in time order, for the habit; only the last is `missed` |
| NotificationService.Upcoming | frontend/src/services/notificationService.js:145-206 | exactly the candidates strictly after now |
| NotificationService.UpcomingOrdered | frontend/src/services/notificationService.js:145-206 | keeping the future candidates keeps their time order |
| NotificationService.ReminderPlan | frontend/src/services/notificationService.js:136-206 | nothing without a reminder time; otherwise at most four, all after now, exactly the future candidates, in strictly increasing time order |
| NotificationService.ReminderPlanCount | frontend/src/services/notificationService.js:145-206 | all four when the first is ahead, none once the late one is past |
| NotificationService.KeyOf | frontend/src/services/notificationService.js:223 | a reminder's key carries its habit id |
| NotificationService.KeyOfHabit | frontend/src/services/notificationService.js:212-223 | every key of a habit's reminder starts with `${habitId}-` |
| NotificationService.WithoutPrefix | frontend/src/services/notificationService.js:209-217 | exactly the keys not starting with the prefix remain, with their timers |
| NotificationService.ScheduleAllFrame | frontend/src/services/notificationService.js:219-237 | scheduling adds or replaces only the planned keys, with positive delays; other timers are kept |
| NotificationService.PlannedKeysPrefix | frontend/src/services/notificationService.js:209-223 | every planned key of a habit starts with its prefix |
| NotificationService.RescheduledTimers | frontend/src/services/notificationService.js:136-237 | after rescheduling, the habit's timers all lie in the future, and other habits' timers are untouched |
| NotificationService.Service.constructor | frontend/src/services/notificationService.js:17-30 | the stored list, nothing sent or scheduled, the daily check set |
| NotificationService.Service.SetupDailyCheck | frontend/src/services/notificationService.js:49-70 | the pending daily check is replaced by the next 07:00 |
| NotificationService.Service.SaveNotification | frontend/src/services/notificationService.js:72-98 | a repeated type and time changes nothing; otherwise the key is recorded and the list is appended to and cut to three days |
| NotificationService.Service.SendDailySummary | frontend/src/services/notificationService.js:119-134 | nothing changes when no habit is due or the summary's key was already sent; otherwise the summary is appended and retained, and its key is added to the sent keys less the pruned ones; timers and the daily check are kept |
| NotificationService.Service.ClearExistingReminders | frontend/src/services/notificationService.js:209-217 | the loop leaves exactly the timers whose key does not start with `${habitId}-` |
| NotificationService.DropMatching | frontend/src/services/notificationService.js:211-216 | visiting every key once deletes exactly the timers of the doomed keys and leaves the other timers as they were |
| NotificationService.Service.ScheduleNotification | frontend/src/services/notificationService.js:219-237 | one timer per key, the new one replacing any old |
| NotificationService.Service.ScheduleIfAfter | frontend/src/services/notificationService.js:146-158 | a candidate after `now` is scheduled under its key; one at or before `now` changes nothing |
| NotificationService.Service.ScheduleHabitReminders | frontend/src/services/notificationService.js:136-207 | nothing without a reminder time; otherwise the habit's timers are cleared and each future candidate is scheduled in order |
| NotificationsPanel.Load | frontend/src/components/Notifications.jsx:16-24 | exactly the stored notifications newer than three days, in order |
| NotificationsPanel.LoadAfterSave | frontend/src/components/Notifications.jsx:18-23 | the page opened when the service saved shows the saved list whole |
| NotificationsPanel.ClearNotification | frontend/src/components/Notifications.jsx:26-30 | exactly the notifications of other ids are kept |
| NotificationsPanel.ClearNotificationAppend | frontend/src/components/Notifications.jsx:27 | the removal distributes over concatenation, so order is kept |
| NotificationsPanel.ClearAbsentId | frontend/src/components/Notifications.jsx:27 | a list without that id is unchanged |
| NotificationsPanel.ClearCommutesWithLoad | frontend/src/components/Notifications.jsx:18-30 | removing then reloading equals reloading then removing |
| NotificationsPanel.ClearAll | frontend/src/components/Notifications.jsx:32-35 | the list becomes empty |
| NotificationsPanel.ClearAllIsFinal | frontend/src/components/Notifications.jsx:32-35 | after clearing all, removing or reloading changes nothing |
| NotificationsPanel.IconFor | frontend/src/components/Notifications.jsx:37-50 | reminder, daily-summary, missed and completed map to their icons, and exactly the other types to the bell |
| NotificationsPanel.ColorFor | frontend/src/components/Notifications.jsx:52-65 | the same four types map to their colours, and exactly the other types to gray |
| NotificationsPanel.IconAndColorAgree | frontend/src/components/Notifications.jsx:37-65 | two types share an icon exactly when they share a colour |
| NotificationsPanel.ServiceKindsAreKnown | frontend/src/components/Notifications.jsx:37-65 | the service's reminders show a clock, its late reminder an alert, its summary a purple calendar |
| HomeStats.CountValue | frontend/src/components/Home.jsx:64-85 | a count card shows `0` for a missing field, and its text parses back to the shown number |
| HomeStats.CompletionRateValue | frontend/src/components/Home.jsx:70 | `0%` when missing; otherwise the rate's digits followed by `%` |
| HomeStats.CurrentStreakValue | frontend/src/components/Home.jsx:79 | `0 days` when missing; otherwise the streak's digits followed by ` days` |
| HomeStats.ActiveTrend | frontend/src/components/Home.jsx:66 | `Active now` exactly when active habits is present and positive, else `Start one today!` |
| HomeStats.ChangeTrend | frontend/src/components/Home.jsx:72-75 | a `+` exactly before a positive change, then the change (0 when missing), then `% vs last week` |
| HomeStats.BestTrend | frontend/src/components/Home.jsx:81 | `Best: ` and the best streak (0 when missing) and ` days` |
| HomeStats.AchievementsTrend | frontend/src/components/Home.jsx:87 | `<n> new unlocked` exactly for a positive count, else `Keep going!` |
| HomeStats.CardsForServerStats | frontend/src/components/Home.jsx:61-88 | for the server's statistics: `Active now` exactly with a habit, `Keep going!` exactly without achievements, a rate of at most 100 |
| Navigation.ActiveFlags | frontend/src/components/Layout.jsx:36-40 | the root entry is active exactly for `/`, any other entry exactly when the path starts with it |
| Navigation.NoEntryPrefixesAnother | frontend/src/components/Layout.jsx:26-34 | no entry other than the root begins with another |
| Navigation.AtMostOneActive | frontend/src/components/Layout.jsx:26-40 | for any path at most one entry is highlighted |
| Navigation.PlainPrefixMatch | frontend/src/components/Layout.jsx:38 | the match has no segment boundary: `/habitsxyz` highlights My Habits |
| Navigation.FormPagesHighlightNothing | frontend/src/components/Layout.jsx:26-40 | `/edit-habit/x` and `/new-habit` highlight no entry |
| ScheduleAgreement.StatisticsDueIsCalendarDue | frontend/src/components/HabitCalendar.jsx:32-54 | whatever the statistics page counts as due, the calendar lists |
| ScheduleAgreement.CalendarAgreesAtMidnight | frontend/src/components/HabitCalendar.jsx:34-39 | with a start date at midnight, the calendar and the statistics page agree |
| ScheduleAgreement.CalendarAheadOfStatistics | frontend/src/components/Statistics.jsx:259-262 | with a start later on the same day, the calendar lists the habit before the statistics page counts it |
| ScheduleAgreement.ProfileIsStatisticsWithStart | frontend/src/components/Profile.jsx:166-185 | the profile's rule is the statistics rule plus the presence of a start date |
| ScheduleAgreement.ServiceIgnoresStart | frontend/src/services/notificationService.js:266-281 | the service's rule includes the statistics rule and equals it once the habit has started |
| ScheduleAgreement.ServiceDueBeforeStart | frontend/src/services/notificationService.js:266-281 | a daily habit starting in ten days is in today's summary, though no page counts it as due |
| ScheduleAgreement.NeverDueBeforeStartDay | frontend/src/components/Statistics.jsx:259-262 | before the start day, neither the statistics, calendar nor profile rule is due |

## Left out

- The user controller, authentication, the routes, the HTTP client and the server: every decision there goes through the database, bcrypt or JWT.
- The Mongo calls (`find`, `findOne`, `save`, `countDocuments`, `aggregate`). The habits are an in-memory list. The aggregate pipeline of the previous week is a filter-and-count over entries.
- `getHabits`, `getHabit`, `updateHabit` and `deleteHabit`: each is a single database call with a 404 branch. Their owner-scoped lookup is the one `FindHabit` models.
- `localStorage` persistence: the stored list is a parameter, and the stored copy equals the list the service keeps.
- Timer firing (`setTimeout` callbacks), `clearTimeout`, Audio, the browser Notification API, window events, `fetch` in `getTodaysHabits`, and `checkPermission`.
- `Math.random` and `Date.now` in `generateId` and `getRandomLateMessage`: the ids and the late message are parameters.
- The pruning of keys by `split('-')` in `clearOldScheduledNotifications` and in `saveNotification`'s 24-hour clean-up (notificationService.js:84-91). `SaveNotification` takes the set of pruned keys as a parameter. As written, the dedup key is `${type}-${timestamp}` with an ISO timestamp. For `reminder-…` and `missed-…` keys, `split('-')[1]` is the year, which JavaScript reads as 1 January of that year, so from 2 January on every such key is pruned at once, the one just added included. For `daily-summary-…` keys it is `summary`, an invalid date that is never earlier, so those keys are never pruned. De-duplication therefore holds only for daily summaries.
- NotificationService.TimerKey: a timer key is held as the pair (habit id, instant) it is printed from. The prefix test is applied to the printed string. The model assumes distinct pairs print as distinct strings. An ISO timestamp starts with a digit or a sign, so they do unless a habit id itself contains `-` followed by such a timestamp.
- Time zones, DST and locale: UTC and local time coincide, and every day has 24 hours. `format(..., 'EEE')` and `toLocaleDateString` weekdays are the weekday of the day number.
- Floating point: rates are kept as integer numerator and denominator, with `Math.round` written out. `toFixed(1)` on the details page and the bar heights of the streak chart are not modelled.
- ProgressLog.RoundPercent: rounds the exact fraction, halves up. JavaScript rounds the double `a / b * 100`, which can fall just below a half: 23/40 gives 57.49999999999999, so JavaScript shows 57 where the model gives 58 (29/200: 14 against 15).
- HabitDetails.ThirtyDayRate: the rate is returned as the fraction `completedDays / recentProgress.length`. The multiplication by 100 for display is not modelled.
- The civil-calendar conversion (`CivilFromDays`) behind `startOfMonth` and `endOfMonth` is stated as arithmetic. MonthGrid's contract does not prove that it agrees with the Gregorian calendar.
- HabitCalendar.MonthLength: states only the 28..31 bound, not which month has which length.
- Profile.ValidateEdit: the six-character password minimum counts characters. JavaScript's `length` counts UTF-16 code units, so a password with characters outside the Basic Multilingual Plane is longer there than here.
- HabitForm.IconFilter: lower-cases ASCII letters only. JavaScript's `toLowerCase` also folds non-ASCII letters, so a search typed with accented capitals can match differently.
- HabitDetails.RecentActivity: returns a new sorted list. The panel sorts `habit.progress` in place, so the habit object it was given is reordered as a side effect; that aliasing is not modelled.
- ProgressLog.SortNewestFirst: states the order and the permutation, not stability (the relative order of entries with the same date).
- Missing fields: a habit without a `progress` or `days` array (the `if (!habit.progress) return` skips and the `?.` guards in Statistics, Profile, HabitCalendar and HabitList) cannot occur, because the model's log and day list are always lists, possibly empty.
- The quantity input of the habit form arrives as a string, and JS coerces it when it compares `quantity < 1`. The model's quantity is an integer.
- Rendering, CSS, toasts and navigation. Edit-habit only fetches and delegates to the form. The notifications page sorts its state array newest first in place while rendering (Notifications.jsx:94), so `clearNotification` filters and stores the list in that newest-first order, not in the stored order that NotificationsPanel.ClearNotification and ClearNotificationAppend take as input.
- `handleSettingChange` and the profile page's settings persistence: these only write to `localStorage`.

## Findings

| source | as written | input that shows it | evidently intended | confidence | as-written member | corrected member |
|---|---|---|---|---|---|---|
| Backend/controllers/habitController.js:158-181 | `tempStreak` is declared once, outside the per-habit loop, and never reset between habits | two habits, each with one completed entry: best streak 2 | the streak counter restarts for each habit, so the best streak is the longest run of one habit (1) | not executed | HabitController.SharedStreakCounterexample | HabitController.PerHabitBestIsLongestRun |
| frontend/src/components/Statistics.jsx:47-54 | `completed / total * 100` for a day with `total == 0` is `NaN`, which falls through every `<` test to the top band | a day of the week with nothing due (tally 0/0) | a day with nothing due is shown like a day with no completion (`bg-gray-100`) | not executed | Statistics.HeatmapEmptyDayIsTopBand | Statistics.HeatmapColorCorrected |
| frontend/src/components/NewHabitForm.jsx:268 | a click stores the icon's position in the filtered grid, but the preview and the habit list read that position from the full catalogue | search "fitness", click the first shown icon (Exercise): the preview and the saved habit show Health | the catalogue position of the clicked icon is stored | not executed | HabitForm.SelectionMismatchUnderFilter | HabitForm.SelectIcon |
