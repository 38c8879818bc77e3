# Tally study-progress and quota engine in Dafny

Tally is an iOS study planner. A user keeps qualifications (exam goals). Each
qualification owns materials, such as a book of pages or a course counted in
minutes (unit "時間"). Every time the user studies, the app stores a dated study
log against a material. This project models the engine under those screens:

- the daily-quota rules: a material's own automatic mode, the older
  qualification-level automatic mode, and the manual quota, plus the three
  screens that recompute them;
- the ledger: recording progress clamped at the total while logging the raw
  amount, adding, adjusting and deleting one day's logs, and saving a log for
  any past day;
- the cascades: a material with its logs, a memo with its images, and a
  qualification with its materials, logs, memos and images;
- selecting exactly one qualification, and memo and image ordering;
- the day-set calculators: the streak, the study days of the current Monday
  week, the heatmap buckets and today's amount;
- the heatmap and month grids, and month navigation;
- the minute formatter, the hours/minutes conversion of the material form, and
  the integer part of `Color(hex:)`.

Time is counted in integer seconds (`Instant`) from a local midnight that began a
Monday. Days are integer keys (`Day`), and `startOfDay` is division by 86400.
"Now", a month's first day and length, the date one month on or back, and the
heatmap window's raw start are parameters. The persistent store is the class
`Persistence.Store`: one sequence per table, in insertion order, with fresh ids
from a counter. The view models and forms are classes over it. Their methods
state the store's new contents in terms of functions on the old contents, and
lemmas state what those functions mean.

Modules, one file each:

| module | file | models |
|---|---|---|
| `Prelude` | prelude.dfy | option, filter, first match, sums, insertion sort, trimming |
| `Numerics` | numerics.dfy | Swift's truncating `/` and `%`, ceiling division, `"\(n)"` and `Int(s)` |
| `Calendar` | calendar.dfy | day keys, weekday numbers, the Monday of a week |
| `Models` | models.dfy | `Material`, `StudyLog`, `Qualification`, `AppSettings`, `Memo`, `MemoImage` |
| `Persistence` | persistence.dfy | the store and the ledger updates the home screens share |
| `DaySets` | daysets.dfy | streak, weekly count, heatmap, today's amount |
| `Quota` | quota.dfy | the quota rules |
| `Formatting` | formatting.dfy | `formatMinutes` |
| `Home` | home.dfy | `HomeViewModel` |
| `Legacy` | legacy.dfy | `StudyViewModel` |
| `QuotaViews` | quotaviews.dfy | `QuotaSettingsView`, `MaterialQuotaEditView` |
| `MaterialForm` | materialform.dfy | `Material/MaterialEditView` |
| `DailyLog` | dailylog.dfy | `DailyStudyLogView` |
| `AddLog` | addlog.dfy | `AddStudyLogView` |
| `ProgressRow` | progressrow.dfy | `MaterialProgressView` (Home) |
| `Grids` | grids.dfy | `HeatmapView`, `StudyCalendarView` |
| `Qualifications` | qualifications.dfy | `QualificationViewModel` |
| `Memos` | memos.dfy | `MemoViewModel` |
| `HexColor` | hexcolor.dfy | `Color(hex:)` in `Theme.swift` |

`Tally/Models/Material.swift` is an older snapshot. It lacks `qualificationId`,
`quotaMode`, `deadline` and `useWeeklyTarget`, which the view models read and
write. The model has those fields, with the defaults `addMaterial` passes
(manual mode, no deadline, no weekly target). For the same reason
`AppSettings` carries the `selectedQualificationId` that
`QualificationViewModel` writes.

## Model

| member | source | states |
|---|---|---|
| Models.RemainingAmount | Tally/Models/Material.swift:35-37 | never negative; `total - progress` while progress has not passed the total, 0 once it has |
| Models.NewMaterialUntouched | Tally/Models/Material.swift:15-24 | a new material has progress 0, so its remainder is its total; name, total, unit, quota and order are kept as given; manual mode, no deadline, no weekly target |
| Models.ClampedProgress | Tally/ViewModels/HomeViewModel.swift:93 | `min(progress + amount, total)`: at most each of the two, and equal to one of them |
| Models.NewLogSameDay | Tally/Models/StudyLog.swift:12-15 | two logs created at any moments of one day carry that day's key; material id and amount are stored unchanged |
| Calendar.StartOfDayBounds | Tally/Models/StudyLog.swift:13 | the day key of a moment is the day whose span contains it |
| Calendar.SameDaySameKey | Tally/Models/StudyLog.swift:13 | two moments in one day's span get the same key, that day's |
| Calendar.StartOfDayIdempotent | Tally/ViewModels/HomeViewModel.swift:106 | cutting an already cut date to its day changes nothing |
| Calendar.Weekday | Tally/ViewModels/HomeViewModel.swift:130 | Gregorian weekday numbers 1 (Sunday) to 7; 2, Monday, exactly on the days a multiple of seven from day 0 |
| Calendar.MondayOf | Tally/ViewModels/HomeViewModel.swift:127-131 | this week's Monday: a day with weekday 2, at most six days before the given day |
| Calendar.MondayOfUnique | Tally/ViewModels/HomeViewModel.swift:127-131 | a Monday at most six days back is the Monday of the week |
| Calendar.LocaleWeekMondayMondayFirst | Tally/ViewModels/HomeViewModel.swift:129-131 | with Monday-first weeks, "weekday 2 of this week-of-year" is the Monday on or before today |
| Calendar.LocaleWeekMondaySundayFirst | Tally/ViewModels/HomeViewModel.swift:129-131 | with Sunday-first weeks, the same holds on every day but Sunday |
| Calendar.LocaleWeekMondaySundayFirstOnSunday | Tally/ViewModels/HomeViewModel.swift:129-131 | with Sunday-first weeks, on a Sunday it yields tomorrow, while the Monday-week's Monday is six days back |
| Numerics.ParseInt | Tally/Views/Material/MaterialEditView.swift:159-167 | `Int(s)`: the empty string and text that starts with anything but a digit or sign give nil; all digits read as their decimal value |
| Numerics.ParseIntToString | Tally/Views/Home/MaterialQuotaEditView.swift:132-143 | `Int(String(i)) == i` for every integer, so a prefilled quota field reads back as the stored quota |
| Numerics.ParseNatToString | Tally/Views/Material/MaterialEditView.swift:183-192 | the decimal digits written for a number read back as that number |
| Numerics.NatToStringInjective | Tally/Views/Home/MaterialProgressView.swift:11-16 | two different numbers never render the same |
| Prelude.Trim | Tally/Views/Material/MaterialEditView.swift:28 | `trimmingCharacters(in:)`: empty exactly when every character is stripped; otherwise begins and ends with a kept character; only characters of the input |
| Prelude.TrimPadded | Tally/Views/Material/MaterialEditView.swift:170 | stripped characters around a text whose ends are kept are removed, and nothing else |
| Persistence.MaterialsOfAppend | Tally/ViewModels/HomeViewModel.swift:26-36 | a stored material joins its own qualification's list at the end and no other list |
| Persistence.LogsOfMaterialsAppend | Tally/ViewModels/HomeViewModel.swift:38-47 | a stored log joins the fetched logs at the end exactly when its material is listed |
| Persistence.LogsWithoutAppend | Tally/ViewModels/HomeViewModel.swift:75-88 | a log survives a material's deletion exactly when it belongs to another material |
| Persistence.RecordKeepsMaterialsOf | Tally/ViewModels/HomeViewModel.swift:92-99 | recording progress leaves the set of a qualification's material ids unchanged |
| Persistence.Store.FetchOrCreateSettings | Tally/ViewModels/StudyViewModel.swift:37-48 | returns the first stored settings record; with none, stores and returns a default one (no exam, 4 days a week, manual) |
| Persistence.Store.InsertLog | Tally/Models/StudyLog.swift:12-15 | appends exactly one log with a fresh id, the given material and amount, and the date's day key |
| Persistence.Store.ClampProgress | Tally/ViewModels/HomeViewModel.swift:93 | the material's progress becomes `min(progress + amount, total)`; every other material is unchanged |
| Persistence.Store.RecordProgress | Tally/ViewModels/HomeViewModel.swift:92-99 | clamps the material's progress at its total and appends one log of the raw, unclamped amount, dated today |
| Persistence.Store.DeleteMaterial | Tally/ViewModels/HomeViewModel.swift:75-88 | for a stored material: removes it and exactly the logs with its id; the materials left are exactly those with another id |
| Persistence.Store.DeleteMemo | Tally/ViewModels/MemoViewModel.swift:43-56 | for a stored memo: removes it and exactly the images with its id; the memos left are exactly those with another id |
| Persistence.Store.UpdateSettings | Tally/ViewModels/StudyViewModel.swift:190-203 | applies the update to the settings record with the given id; other records stay |
| Persistence.SettingsUpdateStored | Tally/ViewModels/StudyViewModel.swift:190-203 | the settings record held in memory is the stored one: after an update by id, the updated record is stored, and it is the only record with that id |
| DaySets.StudyDays | Tally/ViewModels/HomeViewModel.swift:106 | the study days are exactly the day keys of the logs |
| DaySets.RunBackIsRun | Tally/ViewModels/HomeViewModel.swift:116-120 | the backward count covers only study days, and the day before the run is not one |
| DaySets.RunBackUnique | Tally/ViewModels/HomeViewModel.swift:116-120 | only one length describes the run ending at a day |
| DaySets.StreakIsMaximalRun | Tally/ViewModels/HomeViewModel.swift:103-122 | the streak is the length of the maximal run of study days ending at the anchor (today if studied, else yesterday) |
| DaySets.Streak | Tally/ViewModels/HomeViewModel.swift:103-122 | the anchor (today if studied, else yesterday) and the days before it, as many as the streak, are study days; the next day back is not |
| DaySets.StreakZero | Tally/ViewModels/HomeViewModel.swift:103-122 | the streak is 0 exactly when neither today nor yesterday is a study day |
| DaySets.StreakExampleThroughToday | Tally/ViewModels/HomeViewModel.swift:103-122 | study today and the two days before gives 3 |
| DaySets.StreakExampleThroughYesterday | Tally/ViewModels/HomeViewModel.swift:111-114 | study yesterday and the day before but not today still gives 2 |
| DaySets.CurrentStreak | Tally/ViewModels/HomeViewModel.swift:103-122 | the loop returns the maximal run ending at the anchor |
| DaySets.DaysInRangeStep | Tally/ViewModels/HomeViewModel.swift:135-138 | widening the week by one day adds that day exactly when it is a study day |
| DaySets.DaysInRangeAtMost | Tally/ViewModels/HomeViewModel.swift:135-138 | a range of `n` days holds at most `n` study days |
| DaySets.WeeklyCount | Tally/ViewModels/HomeViewModel.swift:126-140 | the study days of the Monday week containing today number at most 7 |
| DaySets.WeeklyStudyDays | Tally/ViewModels/HomeViewModel.swift:126-140 | the loop counts the study days among the seven days from this week's Monday; at most 7 |
| DaySets.WeeklyCountsToday | Tally/ViewModels/HomeViewModel.swift:126-140 | a study day today counts toward this week |
| DaySets.WeeklyExample | Tally/ViewModels/HomeViewModel.swift:126-140 | Monday, Wednesday and Friday of this week give 3 on any day of the week |
| DaySets.LocaleWeeklyMissesSunday | Tally/ViewModels/HomeViewModel.swift:129-139 | as written, in a Sunday-first locale on a Sunday, a study day today counts 0 though the Monday week holds it |
| DaySets.DaySumNone | Tally/ViewModels/HomeViewModel.swift:205-207 | a day without logs sums to 0 |
| DaySets.HeatmapData | Tally/ViewModels/HomeViewModel.swift:197-210 | the loop yields, for each logged day of `[start, today]`, the sum of that day's amounts over all materials |
| DaySets.Heatmap | Tally/ViewModels/HomeViewModel.swift:197-210 | every day of `[start, today]` with a log is a bucket, no day outside it is, and each bucket holds the sum of that day's amounts |
| DaySets.HeatmapIgnoresOutside | Tally/ViewModels/HomeViewModel.swift:205 | a log outside the window changes no bucket |
| DaySets.HeatmapAddsInside | Tally/ViewModels/HomeViewModel.swift:205-207 | a log inside the window adds its amount to its own day's bucket (created at 0) and to no other |
| DaySets.HeatmapExample | Tally/ViewModels/HomeViewModel.swift:197-210 | two logs of 3 and 4 on one day of the window give that day 7 |
| DaySets.TodayAmountAppend | Tally/ViewModels/HomeViewModel.swift:187-193 | one more log adds its amount to today's amount exactly when it is that material's log of today |
| DaySets.TodayAmount | Tally/ViewModels/HomeViewModel.swift:187-193 | with no log of the material today, today's amount is 0; `TodayAmountAppend` gives how each log adds to it |
| DaySets.TodayAmountIsDaySum | Tally/ViewModels/HomeViewModel.swift:187-193 | for one material's logs, today's amount equals the heatmap's day sum |
| Quota.ScaledStudyDays | Tally/ViewModels/HomeViewModel.swift:166 | seven times `max(1, daysLeft * w / 7)` is at least 7 and at least `daysLeft * w` |
| Quota.WeeklyCeilShortWindow | Tally/ViewModels/HomeViewModel.swift:166-167 | when `daysLeft * w <= 7` the share is the whole remainder |
| Quota.WeeklyCeilFullWeek | Tally/ViewModels/HomeViewModel.swift:164-170 | a weekly target of 7 gives `ceil(remaining / daysLeft)`, the share without weekly target |
| Quota.WeeklyCeilBounds | Tally/ViewModels/HomeViewModel.swift:166-167 | the share lies in `[0, remaining]`, and is at least 1 when work remains |
| Quota.WeeklyCeilAntitone | Tally/ViewModels/HomeViewModel.swift:166-167 | more study days a week never raise the share |
| Quota.WeeklyCeilAtLeastDaily | Tally/ViewModels/HomeViewModel.swift:164-170 | with at most 7 study days a week the share is at least `ceil(remaining / daysLeft)` |
| Quota.WeeklyCeilExample | Tally/ViewModels/HomeViewModel.swift:164-170 | 100 units, 10 days: 10 a day daily, 18 a day at 4 days a week |
| Quota.DaysUntilExam | Tally/ViewModels/HomeViewModel.swift:144-150 | nil exactly without an exam date; otherwise today plus the result is the exam's day |
| Quota.AutoDeadline | Tally/ViewModels/HomeViewModel.swift:157 | the material's own deadline, else the qualification's exam date, else none |
| Quota.AutoQuota | Tally/ViewModels/HomeViewModel.swift:156-172 | without a deadline the manual quota; with `daysLeft <= 0` the remainder; with a deadline always in `[0, remaining]`, and at least 1 when work remains |
| Quota.AutoQuotaFinishesInTime | Tally/ViewModels/HomeViewModel.swift:164-170 | doing the quota on every study day finishes the remainder by the deadline, and one less a day would not |
| Quota.LegacyQuota | Tally/ViewModels/HomeViewModel.swift:174-183 | the least quota that, done on `daysLeft * w / 7` study days, covers the remainder: `(q - 1) * d * w < 7 * r <= q * d * w` |
| Quota.LegacyMatchesWeekly | Tally/ViewModels/HomeViewModel.swift:174-183 | when `daysLeft * w >= 7` the qualification-level rule equals the per-material weekly rule |
| Quota.LegacyExceedsRemainder | Tally/ViewModels/HomeViewModel.swift:178-180 | with work left, the qualification-level rule asks for more than the remainder exactly when `daysLeft * w < 7` |
| Quota.FirstApplicable | Tally/ViewModels/HomeViewModel.swift:154-185 | the answer of the first rule that applies, or the fallback when none does |
| Quota.CalculatedDailyQuota | Tally/ViewModels/HomeViewModel.swift:154-185 | the quota is the first applicable of: the material's auto rule, the qualification's auto rule, the manual quota |
| Quota.CalculatedAutoWithinRemainder | Tally/ViewModels/HomeViewModel.swift:156-172 | a material in auto mode with a deadline is never asked for more than its remainder |
| Quota.LegacyExample | Tally/ViewModels/HomeViewModel.swift:174-183 | 1 unit left, exam tomorrow, 1 study day a week: the qualification-level rule asks for 7 |
| Quota.StudyDailyQuota | Tally/ViewModels/StudyViewModel.swift:157-169 | without settings the manual quota |
| Quota.StudyQuotaMatchesHomeForManual | Tally/ViewModels/StudyViewModel.swift:157-169 | for a manual material the older screen gives the newer screen's quota under the same settings |
| Quota.PreviewQuota | Tally/Views/Home/MaterialQuotaEditView.swift:17-30 | the preview lies in `[0, remaining]`; with at most one day left it is the whole remainder |
| Quota.PreviewMatchesAuto | Tally/Views/Home/MaterialQuotaEditView.swift:17-30 | with a deadline still ahead the preview equals the automatic quota |
| Formatting.HoursMinutesRecombine | Tally/Views/Home/MaterialProgressView.swift:19-20 | for `n >= 0`, `60 * h + m == n` with `0 <= m < 60` |
| Formatting.FormatMinutes | Tally/Views/Home/MaterialProgressView.swift:18-28 | under an hour "m分"; whole hours "h時間"; otherwise "h時間m分", with Euclidean `/` and `%` for counts that are not negative; a negative count shows only its negative minutes |
| Formatting.FormatMinutesParts | Tally/Views/Home/MaterialProgressView.swift:18-28 | the text is a number followed by text that begins with a non-digit |
| Formatting.NumberThenText | Tally/Views/Home/MaterialProgressView.swift:18-28 | digits followed by text that starts with a non-digit split in only one way |
| Formatting.FormatMinutesInjective | Tally/Views/Home/MaterialProgressView.swift:18-28 | different minute counts that are not negative are shown differently |
| Home.HomeViewModel.constructor | Tally/ViewModels/HomeViewModel.swift:14-16 | starts with no qualification selected |
| Home.HomeViewModel.Load | Tally/ViewModels/HomeViewModel.swift:20-24 | selects the qualification; materials and logs are then that qualification's |
| Home.HomeViewModel.Materials | Tally/ViewModels/HomeViewModel.swift:26-36 | exactly the stored materials of the selected qualification; none without one |
| Home.HomeViewModel.StudyLogs | Tally/ViewModels/HomeViewModel.swift:38-47 | exactly the stored logs whose material is listed; none without a qualification |
| Home.HomeViewModel.AddMaterial | Tally/ViewModels/HomeViewModel.swift:51-61 | without a qualification nothing changes; otherwise one new material of it is stored, with progress 0 and `order` the number already listed |
| Home.HomeViewModel.UpdateMaterial | Tally/ViewModels/HomeViewModel.swift:63-73 | overwrites name, total, unit, quota, mode, deadline and weekly flag of that material only; progress and order stay |
| Home.HomeViewModel.DeleteMaterial | Tally/ViewModels/HomeViewModel.swift:75-88 | for a stored material: removes it and exactly its logs; the materials left are exactly those with another id |
| Home.HomeViewModel.RecordProgress | Tally/ViewModels/HomeViewModel.swift:92-99 | progress clamped at the total; exactly one raw-amount log dated today, which joins the shown logs when the material is listed |
| Home.HomeViewModel.CurrentStreak | Tally/ViewModels/HomeViewModel.swift:103-122 | the streak over the selected qualification's logs |
| Home.HomeViewModel.WeeklyStudyDays | Tally/ViewModels/HomeViewModel.swift:126-140 | this Monday week's study days over the selected qualification's logs, at most 7 |
| Home.HomeViewModel.HeatmapData | Tally/ViewModels/HomeViewModel.swift:197-210 | the heatmap buckets of the selected qualification's logs |
| Home.RecordedLogCountsToday | Tally/ViewModels/HomeViewModel.swift:92-99 | a log recorded now adds its amount to today's amount, makes the streak at least 1 and counts this week |
| Home.DeleteKeepsOtherTodayAmounts | Tally/ViewModels/HomeViewModel.swift:75-88 | deleting a material leaves every other material's amount for today unchanged |
| Legacy.StudyViewModel.constructor | Tally/ViewModels/StudyViewModel.swift:14-48 | `init` runs the settings fetch: afterwards settings are present, the first stored record or a new default one |
| Legacy.StudyViewModel.FetchAppSettings | Tally/ViewModels/StudyViewModel.swift:37-48 | afterwards settings are present: the first stored record, or a new default one that is stored |
| Legacy.StudyViewModel.UpdateSettings | Tally/ViewModels/StudyViewModel.swift:190-203 | with settings the update applies both in memory and in the store; without, nothing changes |
| Legacy.StudyViewModel.UpdateExamDate | Tally/ViewModels/StudyViewModel.swift:190-193 | stores the date or clears it, in memory and in the stored record with the settings' id; nothing without settings |
| Legacy.StudyViewModel.UpdateWeeklyTargetDays | Tally/ViewModels/StudyViewModel.swift:195-198 | stores the value as given, unchecked, in memory and in the stored record with the settings' id; nothing without settings |
| Legacy.StudyViewModel.UpdateQuotaCalculationMode | Tally/ViewModels/StudyViewModel.swift:200-203 | stores the mode, in memory and in the stored record with the settings' id; nothing without settings |
| Legacy.StudyViewModel.RecordProgress | Tally/ViewModels/StudyViewModel.swift:86-93 | progress clamped at the total; one raw-amount log dated today |
| Legacy.StudyViewModel.DeleteMaterial | Tally/ViewModels/StudyViewModel.swift:69-82 | for a stored material: removes it and exactly its logs, other logs stay; the materials left are exactly those with another id |
| Legacy.StudyViewModel.CurrentStreak | Tally/ViewModels/StudyViewModel.swift:97-119 | the streak over every stored log |
| Legacy.StudyViewModel.WeeklyStudyDays | Tally/ViewModels/StudyViewModel.swift:123-143 | this Monday week's study days over every stored log, at most 7 |
| Legacy.StudyViewModel.HeatmapData | Tally/ViewModels/StudyViewModel.swift:173-186 | the heatmap buckets of every stored log |
| Legacy.StudyViewModel.CalculatedDailyQuota | Tally/ViewModels/StudyViewModel.swift:157-169 | the settings-level rule; the manual quota without settings |
| Legacy.StudyQuotaCases | Tally/ViewModels/StudyViewModel.swift:157-169 | the manual quota unless auto mode, an exam ahead and a positive weekly target; then `ceil(7 * remaining / (daysLeft * w))` with no floor on the divisor |
| QuotaViews.FormatAmount | Tally/Views/Home/QuotaSettingsView.swift:81-90 | every daily amount ends in "/日"; `FormatAmountInjective` shows that different amounts look different |
| QuotaViews.FormatAmountInjective | Tally/Views/Home/QuotaSettingsView.swift:81-90 | different daily amounts are shown differently unless the unit starts with a digit |
| QuotaViews.FormatQuota | Tally/Views/Home/QuotaSettingsView.swift:54-79 | the list shows the home screen's quota, except for a manual material under the qualification-level auto rule, where it shows the manual quota |
| QuotaViews.WithQuotaSettings | Tally/Views/Home/MaterialQuotaEditView.swift:129-137 | mode and weekly flag stored; in manual mode a quota that reads as a number replaces the old one, otherwise it stays; deadline nil exactly when the toggle is off; nothing else changes |
| QuotaViews.UntouchedQuotaFormKeeps | Tally/Views/Home/MaterialQuotaEditView.swift:129-147 | saving the form as it appeared writes the same material back |
| QuotaViews.RemainingText | Tally/Views/Home/MaterialQuotaEditView.swift:52-63 | for time units the remaining line differs from `formatMinutes` only on whole hours, where it adds "0分"; for other units it is the remaining count, a space and the unit |
| QuotaViews.QuotaEditForm.constructor | Tally/Views/Home/MaterialQuotaEditView.swift:6-15 | the form's initial fields: manual, empty quota, no deadline, no weekly target |
| QuotaViews.QuotaEditForm.Appear | Tally/Views/Home/MaterialQuotaEditView.swift:141-147 | the fields take the material's settings; the toggle is on exactly with a deadline; the picker shows deadline, else exam date, else today |
| QuotaViews.QuotaEditForm.AutoQuotaPreview | Tally/Views/Home/MaterialQuotaEditView.swift:17-30 | the preview lies in `[0, remaining]` |
| QuotaViews.QuotaEditForm.FormatPreview | Tally/Views/Home/MaterialQuotaEditView.swift:32-41 | "約 " followed by what the quota list shows for the amount without its "/日", with a space before a counted unit |
| QuotaViews.QuotaEditForm.Save | Tally/Views/Home/MaterialQuotaEditView.swift:129-137 | the form's settings are written onto the stored material, nothing else |
| QuotaViews.PreviewWithoutDeadline | Tally/Views/Home/MaterialQuotaEditView.swift:17-22 | with no deadline and no exam date the preview is the whole remainder, while the quota used is the manual one |
| QuotaViews.EditorWeeklyDefaultDiffers | Tally/Views/Home/QuotaSettingsView.swift:20 | without a qualification the form assumes 4 study days a week and the home screen 7: 70 minutes in a week preview as 18 but count as 10 |
| MaterialForm.ShownTotalRoundTrip | Tally/Views/Material/MaterialEditView.swift:157-192 | a total shown and saved untouched comes back exactly when it is not a time total or is whole hours; otherwise the extra minutes are lost |
| MaterialForm.SavedTotal | Tally/Views/Material/MaterialEditView.swift:157-162 | a time total is stored as whole hours (a multiple of 60); text that is not a number stores 0 |
| MaterialForm.ShownTotal | Tally/Views/Material/MaterialEditView.swift:185-188 | no contract of its own; `ShownTotalRoundTrip` states what a shown total saves back to |
| MaterialForm.MaterialEditForm.constructor | Tally/Views/Material/MaterialEditView.swift:6-18 | empty texts, default unit "ページ", manual, no deadline, no weekly target |
| MaterialForm.MaterialEditForm.Appear | Tally/Views/Material/MaterialEditView.swift:183-204 | editing: the fields take the material's values, a time total shown in whole hours, the toggle switched on by a deadline; adding: only the picker moves, to the exam date when there is one |
| MaterialForm.MaterialEditForm.AutoQuotaPreview | Tally/Views/Material/MaterialEditView.swift:49-63 | the preview lies between 0 and the amount it spreads (the typed total for a new material, the remainder when editing) |
| MaterialForm.MaterialEditForm.AutoQuotaPreviewText | Tally/Views/Material/MaterialEditView.swift:65-78 | no contract of its own: the preview in `formatMinutes` form for time units, else with the unit; `AutoQuotaPreview` bounds the value |
| MaterialForm.MaterialEditForm.IsValid | Tally/Views/Material/MaterialEditView.swift:27-35 | no contract of its own; `ValidFormSavesPositive` states what a valid form saves |
| MaterialForm.MaterialEditForm.Saved | Tally/Views/Material/MaterialEditView.swift:157-177 | the deadline handed over is nil exactly when the toggle is off |
| MaterialForm.ValidFormSavesPositive | Tally/Views/Material/MaterialEditView.swift:27-35 | a valid form saves a name that is not blank and has no surrounding whitespace, a positive total and, in manual mode, a positive quota |
| MaterialForm.UntouchedEditTotal | Tally/Views/Material/MaterialEditView.swift:157-192 | saving an untouched edit keeps the total exactly when it is not a time total or is whole hours |
| MaterialForm.UntouchedAutoEditStoresAutoQuota | Tally/Views/Material/MaterialEditView.swift:163-168 | an untouched auto material with a deadline ahead stores the home screen's automatic quota |
| MaterialForm.NewMaterialPreviewUsesTypedTotal | Tally/Views/Material/MaterialEditView.swift:50-52 | a new material's preview spreads the typed total, times 60 for time units |
| DailyLog.ShownLogs | Tally/Views/Home/DailyStudyLogView.swift:148-159 | exactly the stored logs of the day whose material is listed |
| DailyLog.ShownLogsAppend | Tally/Views/Home/DailyStudyLogView.swift:148-166 | a new log joins the list at the end exactly when it is of the day and of a listed material |
| DailyLog.LogUnit | Tally/Views/Home/DailyStudyLogView.swift:65-67 | the unit of a listed material with the log's material id; "" when none is listed |
| DailyLog.AdjustStep | Tally/Views/Home/DailyStudyLogView.swift:84-92 | the step is positive, and 5 exactly for time units (1 otherwise) |
| DailyLog.AdjustedLogs | Tally/Views/Home/DailyStudyLogView.swift:168-177 | a new amount <= 0 deletes the log; otherwise the log takes the new amount in place; other logs stay |
| DailyLog.AdjustedDistinct | Tally/Views/Home/DailyStudyLogView.swift:168-177 | adjusting keeps the log ids distinct |
| DailyLog.AdjustUpThenDown | Tally/Views/Home/DailyStudyLogView.swift:84-92 | plus then minus gives the log table back |
| DailyLog.DeleteRemovesSwipedRows | Tally/Views/Home/DailyStudyLogView.swift:179-185 | after the deletion a listed log is still shown exactly when its row was not swiped |
| DailyLog.WithoutIdDistinct | Tally/Views/Home/DailyStudyLogView.swift:179-185 | deleting one log by id keeps the log ids distinct |
| DailyLog.DailyLogScreen.constructor | Tally/Views/Home/DailyStudyLogView.swift:8-12 | the sheet starts with no logs shown |
| DailyLog.DailyLogScreen.FetchLogs | Tally/Views/Home/DailyStudyLogView.swift:148-159 | the list becomes the day's logs of the listed materials |
| DailyLog.DailyLogScreen.AddLog | Tally/Views/Home/DailyStudyLogView.swift:161-166 | one log dated on the sheet's day is stored, and joins the list at the end when its material is listed |
| DailyLog.DailyLogScreen.RecordButton | Tally/Views/Home/DailyStudyLogView.swift:125-133 | one log is added; progress moves, clamped, only when the sheet's day is today |
| DailyLog.DailyLogScreen.AdjustLog | Tally/Views/Home/DailyStudyLogView.swift:168-177 | the table is adjusted as `AdjustedLogs` says; materials are untouched |
| DailyLog.DailyLogScreen.DeleteLogs | Tally/Views/Home/DailyStudyLogView.swift:179-185 | exactly the logs with the ids of the swiped rows are removed; materials are untouched |
| AddLog.QuickSteps | Tally/Views/Home/AddStudyLogView.swift:71-81 | four positive steps, multiples of 5 for time units |
| AddLog.SelectedIn | Tally/Views/Home/AddStudyLogView.swift:15-18 | a listed material with the selected id, found whenever one is listed |
| AddLog.AddLogForm.constructor | Tally/Views/Home/AddStudyLogView.swift:8-13 | today, nothing selected, amount 0 |
| AddLog.AddLogForm.IsValid | Tally/Views/Home/AddStudyLogView.swift:24-26 | no contract of its own; `Save` stores exactly when it holds, and `QuickAdd` and `Reset` say how the form reaches or leaves it |
| AddLog.AddLogForm.AmountDisplay | Tally/Views/Home/AddStudyLogView.swift:28-34 | no contract of its own; `TimeAmountShownExactly` states that a time amount's display determines it |
| AddLog.AddLogForm.PickDate | Tally/Views/Home/AddStudyLogView.swift:40-45 | the picked date is not after today |
| AddLog.AddLogForm.SelectMaterial | Tally/Views/Home/AddStudyLogView.swift:113-115 | choosing a different material clears the amount |
| AddLog.AddLogForm.QuickAdd | Tally/Views/Home/AddStudyLogView.swift:119-123 | adds the step; the form becomes savable |
| AddLog.AddLogForm.Reset | Tally/Views/Home/AddStudyLogView.swift:88-90 | the amount is 0 and the form cannot be saved |
| AddLog.AddLogForm.Save | Tally/Views/Home/AddStudyLogView.swift:136-144 | with a selected material and a positive amount: one log dated on the picked day, and progress clamped whatever the day; otherwise nothing changes |
| AddLog.TimeAmountShownExactly | Tally/Views/Home/AddStudyLogView.swift:28-34 | a time amount is whole 5-minute steps and its display determines it |
| ProgressRow.RecordAmounts | Tally/Views/Home/MaterialProgressView.swift:47-61 | two increasing positive amounts, multiples of 5 for time units |
| ProgressRow.ProgressText | Tally/Views/Home/MaterialProgressView.swift:11-16 | no contract of its own; `ProgressTextReadsBack` states that the line determines progress and total |
| ProgressRow.TimeProgressReadsBack | Tally/Views/Home/MaterialProgressView.swift:11-16 | the time progress line determines progress and total |
| ProgressRow.CountProgressReadsBack | Tally/Views/Home/MaterialProgressView.swift:11-16 | the counted progress line determines progress and total unless the unit starts with a digit |
| ProgressRow.ProgressTextReadsBack | Tally/Views/Home/MaterialProgressView.swift:11-16 | two materials of one unit that does not start with a digit, showing the same line, have the same progress and total |
| Grids.GridStartIsMonday | Tally/Views/Home/HeatmapView.swift:20-27 | the grid starts on the Monday on or before the raw start |
| Grids.Weeks | Tally/Views/Home/HeatmapView.swift:29-48 | rows of 7 slots; slot `j` of row `i` is `start + 7i + j`, blank past the end; the last row reaches the end |
| Grids.SlotOfDay | Tally/Views/Home/HeatmapView.swift:29-48 | every day of the window has its slot |
| Grids.BlankInLastRow | Tally/Views/Home/HeatmapView.swift:37-42 | blanks occur only in the last row |
| Grids.SlotsDistinct | Tally/Views/Home/HeatmapView.swift:29-48 | no day is shown twice |
| Grids.SlotsCoverWindow | Tally/Views/Home/HeatmapView.swift:29-48 | every day once, blanks only in the last row, `ceil((end - start + 1) / 7)` rows |
| Grids.SlotWeekday | Tally/Views/Home/HeatmapView.swift:20-48 | column `j` holds the `j`-th weekday from Monday |
| Grids.DaysInMonth | Tally/Views/Home/StudyCalendarView.swift:19-37 | offset blanks (0 to 6), the month's days in order, then blanks up to a multiple of 7, fewer than 7 |
| Grids.MonthDayColumn | Tally/Views/Home/StudyCalendarView.swift:19-37 | every day of the month sits in its weekday's column |
| Grids.StudyAmount | Tally/Views/Home/StudyCalendarView.swift:51-53 | no contract of its own; `StudyAmountIsDaySum` states what each day shows |
| Grids.StudyAmountIsDaySum | Tally/Views/Home/StudyCalendarView.swift:51-53 | a day of the window shows its total logged amount; other days show 0 |
| Grids.IsFuture | Tally/Views/Home/StudyCalendarView.swift:43-45 | no contract of its own; `TapDay` states that exactly the days not in the future are passed on |
| Grids.TapDay | Tally/Views/Home/StudyCalendarView.swift:115-118 | a tapped day is passed on exactly when it is not in the future |
| Grids.MonthNavigator.constructor | Tally/Views/Home/StudyCalendarView.swift:8 | the sheet opens on the month of today |
| Grids.MonthNavigator.ForwardEnabled | Tally/Views/Home/StudyCalendarView.swift:95-99 | no contract of its own; `SwipePassesToday` shows the button enabled (its test is on the next month's first day) while the tap's own test on the date it would move to rejects the move |
| Grids.MonthNavigator.Forward | Tally/Views/Home/StudyCalendarView.swift:84-99 | moves one month on only when that date is not after today |
| Grids.MonthNavigator.Back | Tally/Views/Home/StudyCalendarView.swift:68-71 | always moves one month back |
| Grids.MonthNavigator.Swipe | Tally/Views/Home/StudyCalendarView.swift:148-165 | the displayed date after a drag is `SwipedMonth` of the old one |
| Grids.SwipedMonth | Tally/Views/Home/StudyCalendarView.swift:148-165 | a drag of at most 50 points changes nothing; a right drag past 50 moves one month back; a left drag past 50 moves one month on only when the next month's first day is not after today; no other change happens |
| Grids.SwipePassesToday | Tally/Views/Home/StudyCalendarView.swift:148-160 | unlike the button, a left swipe can move the displayed date past today: with today the 19th and the 25th of the month before shown, the swipe moves to the 25th, which the tap's test rejects |
| Qualifications.Fetched | Tally/ViewModels/QualificationViewModel.swift:27-30 | every stored qualification, oldest first, as a permutation |
| Qualifications.FirstSelected | Tally/ViewModels/QualificationViewModel.swift:13-15 | none exactly when none is marked; otherwise a marked one, the oldest in a sorted list |
| Qualifications.SelectOnly | Tally/ViewModels/QualificationViewModel.swift:107-110 | each record is marked exactly when its id is the chosen one; nothing else changes |
| Qualifications.SelectOnlySelects | Tally/ViewModels/QualificationViewModel.swift:107-114 | afterwards the refreshed selection has the chosen id, present exactly when such a record exists |
| Qualifications.SelectOnlyMarks | Tally/ViewModels/QualificationViewModel.swift:107-110 | afterwards a record is selected exactly when it has the chosen id |
| Qualifications.FirstAddedSelected | Tally/ViewModels/QualificationViewModel.swift:47-56 | the first qualification added is the selected one |
| Qualifications.Remaining | Tally/ViewModels/QualificationViewModel.swift:97 | every qualification but the deleted one stays |
| Qualifications.RemainingById | Tally/ViewModels/QualificationViewModel.swift:97 | for a stored qualification with distinct ids, exactly the one with its id goes, and the ids stay distinct |
| Qualifications.MaterialsButOwn | Tally/ViewModels/QualificationViewModel.swift:72-82 | deleting a qualification's materials keeps exactly the other qualifications' materials |
| Qualifications.MemosButOwn | Tally/ViewModels/QualificationViewModel.swift:85-95 | deleting a qualification's memos keeps exactly the other qualifications' memos |
| Qualifications.AfterRemovalSelection | Tally/ViewModels/QualificationViewModel.swift:97-104 | deleting a selected one while others remain selects exactly the oldest remaining; deleting an unselected one leaves the rest unchanged |
| Qualifications.QualificationViewModel.constructor | Tally/ViewModels/QualificationViewModel.swift:17-25 | `init` fetches the list and the settings; settings are then present |
| Qualifications.QualificationViewModel.SelectedQualification | Tally/ViewModels/QualificationViewModel.swift:13-15 | `FirstSelected` of the list: a listed qualification marked selected, none exactly when no listed one is, and in a list sorted by creation (as fetched) the oldest selected one |
| Qualifications.QualificationViewModel.FetchQualifications | Tally/ViewModels/QualificationViewModel.swift:27-30 | the list becomes the stored qualifications, oldest first |
| Qualifications.QualificationViewModel.FetchAppSettings | Tally/ViewModels/QualificationViewModel.swift:32-43 | settings present afterwards: the first stored record, or a new default one |
| Qualifications.QualificationViewModel.SetSelectedId | Tally/ViewModels/QualificationViewModel.swift:52 | the settings record the id in memory, and the stored record with the settings' id records it too; nothing changes without settings |
| Qualifications.QualificationViewModel.AddQualification | Tally/ViewModels/QualificationViewModel.swift:47-56 | appends one qualification, selected exactly when the list was empty; then the settings record its id in memory and in the store; otherwise, or without settings, the settings are untouched |
| Qualifications.QualificationViewModel.UpdateQualification | Tally/ViewModels/QualificationViewModel.swift:58-65 | overwrites name, exam date, weekly target and mode, and nothing else |
| Qualifications.QualificationViewModel.MarkOnly | Tally/ViewModels/QualificationViewModel.swift:108-110 | the loop marks exactly the records with the id |
| Qualifications.QualificationViewModel.SelectQualification | Tally/ViewModels/QualificationViewModel.swift:107-114 | the table is marked for the id; the settings record the id in memory and in the store; nothing changes in the settings without them |
| Qualifications.QualificationViewModel.DeleteMaterialsOf | Tally/ViewModels/QualificationViewModel.swift:72-82 | the loop removes exactly that qualification's materials and their logs |
| Qualifications.QualificationViewModel.DeleteMemosOf | Tally/ViewModels/QualificationViewModel.swift:85-95 | the loop removes exactly that qualification's memos and their images |
| Qualifications.QualificationViewModel.DeleteOwnedRecords | Tally/ViewModels/QualificationViewModel.swift:67-95 | both cascades: materials, logs, memos and images of the qualification, nothing else |
| Qualifications.QualificationViewModel.RemoveQualification | Tally/ViewModels/QualificationViewModel.swift:97-104 | the stored qualification goes; when it was selected and others remain, the oldest remaining is selected and its id recorded in the settings, in memory and in the store; otherwise the settings stay as they were |
| Qualifications.QualificationViewModel.DeleteQualification | Tally/ViewModels/QualificationViewModel.swift:67-105 | removes the stored qualification with its materials, logs, memos and images; other records stay; when it was selected and others remain, the oldest remaining is selected and recorded in the settings, in memory and in the store; otherwise the settings stay |
| Memos.NewestFirst | Tally/ViewModels/MemoViewModel.swift:21-25 | exactly the given memos, as a permutation, newest first |
| Memos.ImagesOf | Tally/ViewModels/MemoViewModel.swift:60-67 | the memo's images, as a permutation, in ascending `order` |
| Memos.DataOf | Tally/ViewModels/MemoViewModel.swift:67 | each image's data, in place |
| Memos.Stored | Tally/ViewModels/MemoViewModel.swift:34 | each image as its order and data, in place |
| Memos.PayloadsOrdered | Tally/ViewModels/MemoViewModel.swift:32-37 | the stored orders are positions in the picked list, strictly increasing, and carry the converted data |
| Memos.ReadBack | Tally/ViewModels/MemoViewModel.swift:32-67 | images stored from a picked list read back in ascending order as the converted data in picking order |
| Memos.AddedImagesReadBack | Tally/ViewModels/MemoViewModel.swift:28-67 | a new memo's images read back as the converted pictures, in picking order |
| Memos.DeleteKeepsOtherImages | Tally/ViewModels/MemoViewModel.swift:43-56 | deleting a memo's images leaves every other memo's images unchanged |
| Memos.MemoViewModel.constructor | Tally/ViewModels/MemoViewModel.swift:10-14 | starts with no memos |
| Memos.MemoViewModel.Load | Tally/ViewModels/MemoViewModel.swift:16-26 | none without a qualification; otherwise exactly its memos, newest first |
| Memos.MemoViewModel.AddMemo | Tally/ViewModels/MemoViewModel.swift:28-41 | one memo appended; one image per converted picture with its index as order; reading them back gives the pictures in order |
| Memos.MemoViewModel.AttachImages | Tally/ViewModels/MemoViewModel.swift:32-37 | the loop appends one image per converted picture, ordered by its index, and keeps older images |
| Memos.MemoViewModel.DeleteMemo | Tally/ViewModels/MemoViewModel.swift:43-58 | for a stored memo: removes it and exactly its images, then reloads the list; the memos left are exactly those with another id |
| Memos.MemoViewModel.ImagesForMemo | Tally/ViewModels/MemoViewModel.swift:60-68 | the data of `ImagesOf` the memo, so in ascending `order` and one entry per stored image of the memo; each entry is the data of one of them |
| Memos.MemoViewModel.MaterialsFor | Tally/ViewModels/MemoViewModel.swift:70-74 | none without a qualification; otherwise exactly its materials |
| HexColor.HexDigitValue | Tally/Utilities/Theme.swift:50 | a hex digit's value is below 16 |
| HexColor.HexNumber | Tally/Utilities/Theme.swift:50 | `n` hex digits spell a number below `16^n` |
| HexColor.HexNumberAppend | Tally/Utilities/Theme.swift:50 | the digits of a concatenation spell the first part shifted past the second |
| HexColor.HexPrefixLength | Tally/Utilities/Theme.swift:50 | the length of the leading run of hex digits |
| HexColor.ScanHex | Tally/Utilities/Theme.swift:49-50 | the scanned value is below `16^length` |
| HexColor.ScanHexAllDigits | Tally/Utilities/Theme.swift:49-50 | a string of hex digits only is read whole |
| HexColor.Components | Tally/Utilities/Theme.swift:52-61 | no contract of its own; `ComponentsInRange`, `ComponentsThree`, `ComponentsSix`, `ComponentsEight` and `OtherLengthFallback` state what each digit count gives |
| HexColor.ComponentsInRange | Tally/Utilities/Theme.swift:52-61 | 3, 6 or 8 digits give four components in 0..255 |
| HexColor.ColorFromHex | Tally/Utilities/Theme.swift:47-61 | every colour's components lie in 0..255 |
| HexColor.ComponentsThree | Tally/Utilities/Theme.swift:53-54 | three digits: alpha 255, each digit times 17 |
| HexColor.ColorOfDigits | Tally/Utilities/Theme.swift:48-61 | hex digits after stripped characters are read whole and cut by their count |
| HexColor.ThreeDigits | Tally/Utilities/Theme.swift:53-54 | for a three-digit string, alpha is 255 and each digit times 17 is one component |
| HexColor.HexByte | Tally/Utilities/Theme.swift:55-58 | two hex digits that spell the byte |
| HexColor.TrimAround | Tally/Utilities/Theme.swift:48 | stripping around a string with alphanumeric ends leaves it |
| HexColor.ComponentsSix | Tally/Utilities/Theme.swift:55-56 | six digits: the three bytes are red, green and blue, alpha 255 |
| HexColor.ComponentsEight | Tally/Utilities/Theme.swift:57-58 | eight digits: the four bytes are alpha, red, green and blue |
| HexColor.RgbRoundTrip | Tally/Utilities/Theme.swift:55-56 | `#RRGGBB` reads back its three bytes, alpha 255 |
| HexColor.ArgbRoundTrip | Tally/Utilities/Theme.swift:57-58 | `#AARRGGBB` reads back its four bytes |
| HexColor.HashIgnored | Tally/Utilities/Theme.swift:48 | a leading "#" changes nothing |
| HexColor.OtherLengthFallback | Tally/Utilities/Theme.swift:59-60 | any other trimmed length gives (1, 1, 1, 0) |

## Left out

- The calendar's drag width: SwiftUI reports it as a floating-point number of points, and the model takes whole points. A fractional drag just past ±50 that the source would act on therefore needs the caller to round it away from zero.
- Persistence: fetch and save errors, which the app only prints, are not modelled. A fetch is the table itself.
- Sort order of fetches by `order`, `createdAt` or `date`: materials and a day's logs are listed in stored order. Qualifications, memos and images are sorted, since their order matters.
- Calendar: time zones, daylight saving, locale week rules (except in the finding below), and month arithmetic. Month starts, month lengths and the heatmap window's raw start are parameters.
- `DateFormatter` titles, `isToday` highlighting, haptics, sheet dismissal and `onUpdate` callbacks: presentation only.
- Floating point: `progressRate`, `progressPercent`, colour intensities and the `/255` opacity conversion. The quota code's `ceil` of a `Double` division is exact integer ceiling division here.
- `UIImage.jpegData`: a picked image is given as its converted bytes, or none when conversion fails.
- ImageStorage, app set-up, and the UI-only views and components.
- Numerics.ParseInt: Swift's `Int(s)` returns nil on 64-bit overflow; the model reads any length of digits.
- HexColor.ScanHex: `scanHexInt64` also skips leading whitespace, accepts a "0x" or "0X" prefix and overflows past 16 digits. The model reads the longest run of leading hex digits. Trimming removes the whitespace, and at most 8 digits never overflow. The prefix does make a difference: 'x' is alphanumeric, so it survives trimming. A trimmed text of 3, 6 or 8 characters that begins with "0x" reads as 0 in the model but as the digits after the prefix in Swift. `Color(hex: "0x1234")` gives (255, 0, 0x12, 0x34) in Swift and (255, 0, 0, 0) here; "0x1" and "0x123456" differ in the same way.
- HexColor.IsAlphanumeric: `CharacterSet.alphanumerics` also holds non-ASCII letters and digits; the model strips only by ASCII.
- Quota mode strings: only "manual" and "auto" are modelled, as the two values of `QuotaMode`. The source does not treat any other stored string one way throughout.
  - The quota rules test for "auto" (HomeViewModel.swift:156 and 174, StudyViewModel.swift:158), so there another string acts as manual.
  - The material form's validity check (MaterialEditView.swift:30-34) and the quota editor's save (MaterialQuotaEditView.swift:131-133) test for "manual", so there it acts as auto. The form needs no positive quota, and the editor keeps the stored `dailyQuota`.
  - The material form's save (MaterialEditView.swift:164) tests for "auto" again, so there it acts as manual.
- `StudyViewModel.addMaterial` and `updateMaterial` are not modelled. They are the home screen's versions without the mode, deadline and weekly fields.
- Material.swift `progressRate` and `progressPercent`: floating point.

## Findings

| source | as written | input that shows it | evidently intended | confidence | as-written member | corrected member |
|---|---|---|---|---|---|---|
| Tally/ViewModels/HomeViewModel.swift:129-131 | "this week's Monday" is weekday 2 of the locale's week-of-year | a Sunday in a locale whose weeks begin on Sunday: the Monday found is tomorrow, so `weeklyStudyDays` counts the next seven days and a study day today counts 0 | the Monday on or before today, at most six days back, so today always counts | not executed | DaySets.LocaleWeeklyMissesSunday | DaySets.WeeklyStudyDays |
