# Habbitly core, modelled in Dafny

Habbitly is a Next.js personal-tracking app. Its pages cover habits, a daily task list, money and learning roadmaps. This project models the logic those pages run on the client, leaving out rendering, network calls and storage:

- **Date ranges.** `getDatesInRange` in `src/lib/utils.ts` turns a named range and today's date into `YYYY-MM-DD` keys, and the habit report card draws on the same keys. Modelled as proleptic Gregorian dates (`Calendar`), keys and their order (`DateKeys`) and the three range loops (`DateRange`).
- **Habit dashboard** (`src/app/page.tsx`). The hour-window scheduler, the focus filter and the merge of a saved log into the log list (`Dashboard`).
- **Habit pages.** The per-habit report card (`ReportCard`), the habit management page with its grouping by category (`HabitsPage`), the log buttons and note dialog (`HabitLogger`) and the motivation request (`Motivation`).
- **Tasks** (`TasksPage`).
- **Money.** The finance page (`FinancePage`): a list kept newest date first, totals, the add form and the edit dialog. The finance reports page (`FinanceReports`): the period filter, per-month bars and per-category slices.
- **Learning.** The learning page (`LearningPage`): step parsing, create/update/delete/toggle and progress. The manual roadmap flow (`RoadmapFlow`), the roadmap report card (`LearningReportCard`) and the CSV export with a reader that proves the export loses nothing (`LearningExport`).

Some modules model JavaScript built-ins the pages rely on:

- `SeqUtil`: `filter`, summing with `reduce`, and dictionary key order.
- `StableSort`: `Array.prototype.sort` with a comparator, which is stable.
- `Text`: `trim`, `split` and `join`.
- `Percent`: `Math.round` of a percentage.

State a page keeps with `useState` and replaces in its handlers is a class whose methods reassign its fields. Each method's `ensures` ties the new state to a function of the old one, and lemmas prove what those functions guarantee. Loops in the source that build up a result (`for` with `push`, `forEach`, `reduce`, `findIndex`) are methods with loops and invariants, proved against a specification function. The early-return `for` of `getCurrentCategory` is a lookup with no state, and is the recursive function `Dashboard.FirstWindow`.

## Model

The table lists the members that carry a contract. A function without one is specified by the lemmas about it. Their rows name it in the third column, for example `MergeLog` under Dashboard.MergeLogCases.

| member | source | states |
|---|---|---|
| Calendar.NextDay | src/lib/utils.ts:35 | The day after a valid date is a valid date strictly later. |
| Calendar.PrevDay | src/lib/utils.ts:15-17 | The day before a valid date is valid and earlier, and NextDay of it is the date again. |
| Calendar.PrevOfNext | src/lib/utils.ts:15-17 | Stepping forward then back returns the same date. |
| Calendar.NextDayIsSuccessor | src/lib/utils.ts:35 | No date lies strictly between a date and the next day. |
| Calendar.DaysEndingAtShape | src/lib/utils.ts:15-17 | The i-th of the n days ending at d is d shifted back n-1-i days. Each day is valid, consecutive days are one day apart, and the last is d. |
| Calendar.DaysEndingAtAscending | src/lib/utils.ts:14-38 | A run of days ending at d is strictly increasing. |
| Calendar.ShiftBackInMonth | src/lib/utils.ts:17 | Going back fewer days than the day-of-month stays in the month and subtracts from the day. |
| Calendar.ShiftBackInYear | src/lib/utils.ts:17 | Going back fewer days than the day-of-year stays in the year and lowers the day-of-year by as much. |
| Calendar.MonthToDate | src/lib/utils.ts:23-28 | The day-of-month many days ending today are the 1st, 2nd, ... up to today. |
| Calendar.YearToDate | src/lib/utils.ts:33-36 | The day-of-year many days ending today start on January 1, stay in the year, and number 366 exactly on December 31 of a leap year. |
| Calendar.DayOfYearBounds | src/lib/utils.ts:33-36 | The day-of-year is at most the year's length, with equality exactly on December 31. |
| DateKeys.LexIrreflexive | src/lib/utils.ts:41 | No key sorts before itself. |
| DateKeys.LexAsymmetric | src/lib/utils.ts:41 | Two keys never sort before each other both ways. |
| DateKeys.LexTransitive | src/lib/utils.ts:41 | Key order is transitive. |
| DateKeys.LexTotal | src/lib/utils.ts:41 | Of two different keys one sorts first. |
| DateKeys.PadOrder | src/lib/utils.ts:18 | Zero-padded numbers of one width are equal, or ordered, exactly as the numbers are. |
| DateKeys.ToKey | src/lib/utils.ts:18 | A key is ten characters with dashes at positions 4 and 7. |
| DateKeys.KeyOrder | src/lib/utils.ts:41 | Keys sort exactly in date order, and two dates share a key only when equal. |
| DateKeys.ParseToKey | src/app/finance/reports/page.tsx:63 | Reading back a date's key gives the date. |
| DateKeys.KeyOfParse | src/app/finance/reports/page.tsx:63 | A string that reads as a date is that date's key, so no other spelling is accepted. |
| DateKeys.SortAscending | src/lib/utils.ts:41 | Sorting strictly ascending keys leaves them as they are. |
| DateKeys.SortDescending | src/lib/utils.ts:41 | Sorting strictly descending keys reverses them. |
| DateKeys.RunKeysAscending | src/lib/utils.ts:41 | The keys of a run of days ending at a date are strictly ascending. |
| DateRange.RangeKeyable | src/lib/utils.ts:14-38 | Every day of every range has a four-digit-year key when today does. |
| DateRange.DatesInRange | src/lib/utils.ts:9-42 | `getDatesInRange`, with the monthly bound corrected (see Findings), returns exactly the keys of the range's days in ascending order. `SortKeys`, the final `sort`, is the stable sort under key order. |
| DateRange.PushWeekly | src/lib/utils.ts:14-20 | The weekly loop pushes the week's keys newest first, the reverse of the range. |
| DateRange.PushMonthly | src/lib/utils.ts:22-30 | The monthly loop, with the bound the code evidently intends, pushes the keys of the 1st through today in order. |
| DateRange.PushMonthlyAsWritten | src/lib/utils.ts:22-30 | With the bound counting the milliseconds elapsed today, the loop pushes today.day keys at exactly midnight. At any later instant it pushes one more: tomorrow's key. |
| DateRange.TomorrowOutsideMonthly | src/lib/utils.ts:24-25 | Tomorrow's key is not among the month-to-date keys. |
| DateRange.PushYearly | src/lib/utils.ts:32-38 | The yearly cursor loop pushes the keys of January 1 through today in order, and stops. |
| DateRange.WeeklyRange | src/lib/utils.ts:14-20 | The weekly range is seven days: today and the six before, oldest first. |
| DateRange.MonthlyRange | src/lib/utils.ts:22-30 | The monthly range runs from the 1st of today's month to today, all in that month, and has today.day days. |
| DateRange.YearlyRange | src/lib/utils.ts:32-38 | The yearly range runs from January 1 to today and has day-of-year days, 366 only on a leap year's last day. |
| DateRange.RangeShape | src/lib/utils.ts:9-42 | Every range is non-empty, ends today and steps one day at a time. Its dates and its keys are strictly ascending. |
| ReportCard.LastSevenDaysWindow | src/components/organisms/report-card.tsx:13-17 | `LastSevenDays`, the card's window, is the weekly range: seven ascending keys ending with today's. |
| ReportCard.FindByDate | src/components/organisms/report-card.tsx:20 | `find` yields a log of that date from the list, and nothing exactly when no log has the date. |
| ReportCard.FindByDateFirst | src/components/organisms/report-card.tsx:20 | The log found is the first with the date. |
| ReportCard.Slot | src/components/organisms/report-card.tsx:19-26 | A day's slot carries that day's date. |
| ReportCard.SevenDayLogs | src/components/organisms/report-card.tsx:19-26 | One slot per window day, dated with that day. |
| ReportCard.SlotCases | src/components/organisms/report-card.tsx:19-26 | A day with a log shows a real log. A day without one shows the placeholder, which is not completed. |
| ReportCard.SlotsIgnoreOutside | src/components/organisms/report-card.tsx:19-26 | Logs dated outside the window do not affect the slots. |
| ReportCard.CompletionCount | src/components/organisms/report-card.tsx:28 | The count of completed slots is at most the number of slots. |
| ReportCard.CompletionRateTable | src/components/organisms/report-card.tsx:29 | The rate for 0..7 completed days is 0, 14, 29, 43, 57, 71, 86, 100. |
| ReportCard.CompletionRateBounds | src/components/organisms/report-card.tsx:29 | The rate is 0..100. It is 0 exactly for no day and 100 exactly for all seven. |
| ReportCard.BadgeColor | src/components/organisms/report-card.tsx:31-35 | Green exactly above 75, yellow exactly in 41..75, red exactly at 40 or below. |
| ReportCard.BadgeByCount | src/components/organisms/report-card.tsx:29-35 | By days done: 6-7 green, 3-5 yellow, 0-2 red. |
| ReportCard.CardSummary | src/components/organisms/report-card.tsx:13-35 | The card's slots are the seven days' slots of `LastSevenDays`. Its rate is the rounded share of completed slots, at most 100, and its badge is the rate's colour. |
| Percent.RoundPercent | src/app/learning/page.tsx:136 | The result is the integer nearest to the exact 100·count/total, halves rounded up. The double-precision rounding is listed under Left out. |
| Percent.PercentBounds | src/app/learning/page.tsx:133-137 | A part of a whole is 0..100 percent: 0 for none and 100 for all. |
| Percent.PercentMonotone | src/app/learning/page.tsx:136 | More completed never gives a lower percentage. |
| Dashboard.FirstWindow | src/app/page.tsx:28-38 | The `for` loop, as a recursive lookup, returns the first row whose window holds the hour, or none when no row does. Overnight windows wrap around midnight. |
| Dashboard.FirstWindowOfTable | src/app/page.tsx:19-39 | For the four rows: hours 4-11 pick row 0, 12-15 row 1, 16-21 row 2, 22-3 row 3, and nothing else. |
| Dashboard.HourMapping | src/app/page.tsx:26-40 | `CurrentCategory` (`getCurrentCategory`) gives each hour 0..23 its category: morning, after dhuhr, afternoon/evening or sleep preparation. |
| Dashboard.WindowsPartitionDay | src/app/page.tsx:19-39 | Every hour lies in exactly one window, so `CurrentCategory` never reaches the `'morning'` fallback and never returns "all". |
| Dashboard.FilteredCategoriesShape | src/app/page.tsx:133-136 | `FilteredCategories`: focus mode shows exactly the one row whose window holds the hour. "All" shows the whole table. |
| Dashboard.FindLogIndex | src/app/page.tsx:110 | `findIndex` gives the first index with the id, or -1 exactly when the id is absent. |
| Dashboard.LogPosition | src/app/page.tsx:110 | The position of the first log with the id, or none when absent. |
| Dashboard.MergeLogCases | src/app/page.tsx:109-117 | `MergeLog`, the merge in `handleLogHabit`: a known id is replaced in place and nothing else changes. A new id is appended. The log is present afterwards and other ids keep their entries. |
| Dashboard.MergeLogIdempotent | src/app/page.tsx:109-117 | `MergeLog` with the same log twice is `MergeLog` once. |
| Dashboard.LogPositionAfterUpdate | src/app/page.tsx:111-114 | After a replacement the id is still found at the same place. |
| Dashboard.LogPositionAppend | src/app/page.tsx:116 | After an append the id is found at the end. |
| Dashboard.TodayBoard.constructor | src/app/page.tsx:44-45 | The board starts with the given habits and logs. |
| Dashboard.TodayBoard.AddHabit | src/app/page.tsx:88 | The returned habit is appended and the logs are untouched. |
| Dashboard.TodayBoard.LogHabit | src/app/page.tsx:108-117 | The logs become the merge of the saved log, and the habits are untouched. |
| HabitsPage.CategoryLabel | src/app/habits/page.tsx:20-26 | Every category has a non-empty heading. |
| HabitsPage.CategoryLabelInjective | src/app/habits/page.tsx:20-26 | Different categories have different headings. |
| HabitsPage.GroupByCategory | src/app/habits/page.tsx:105-108 | The dictionary's keys are the categories in order of first use. Each key's entry is that category's habits in list order. |
| HabitsPage.GroupedStep | src/app/habits/page.tsx:106 | One step of the `reduce` keeps the keys and groups in step with the habits seen so far. |
| HabitsPage.GroupsPartition | src/app/habits/page.tsx:105-108 | A group exists exactly for each category in use. It holds exactly that category's habits, is never empty, and the group sizes add up to the number of habits. |
| SeqUtil.ReplaceByKeyShape | src/app/habits/page.tsx:83 | The returned object takes every position holding its id and the rest stay. An unknown id changes nothing, and replacing twice is replacing once. The finance page updates the same way (src/app/finance/page.tsx:66). |
| HabitsPage.HabitsBoard.constructor | src/app/habits/page.tsx:36-38 | The page starts with the loaded habits and no edit dialog. |
| HabitsPage.HabitsBoard.AddHabit | src/app/habits/page.tsx:66 | The returned habit goes last. |
| HabitsPage.HabitsBoard.StartEdit | src/app/habits/page.tsx:272 | The edit dialog opens on the habit and the list is unchanged. |
| HabitsPage.HabitsBoard.UpdateHabit | src/app/habits/page.tsx:74-89 | With no habit being edited nothing happens. Otherwise the returned habit replaces its id and the dialog closes. |
| HabitLogger.Prefill | src/components/molecules/habit-logger.tsx:49-56 | A new note opens empty. An edit opens with today's journal or reason, or empty when there is none. |
| HabitLogger.SaveCall | src/components/molecules/habit-logger.tsx:59-69 | With no dialog type nothing is sent. Otherwise `completed` holds exactly for the two journal types, and the text goes to the journal or to the reason accordingly. |
| HabitLogger.EditDialogType | src/components/molecules/habit-logger.tsx:88 | The edit button edits the journal exactly of a completed log, and the reason exactly of a missed one. |
| HabitLogger.ResaveKeepsLog | src/components/molecules/habit-logger.tsx:49-69 | Opening the edit dialog and saving untouched re-sends today's completion and its text. |
| HabitLogger.Logger.constructor | src/components/molecules/habit-logger.tsx:46-47 | The dialog starts closed, with no type, no text and not saving. |
| HabitLogger.Logger.OpenDialog | src/components/molecules/habit-logger.tsx:49-57 | The dialog opens with the type and its prefilled text. |
| HabitLogger.Logger.OpenEdit | src/components/molecules/habit-logger.tsx:88 | The edit button opens the dialog whose type matches today's log. |
| HabitLogger.Logger.Save | src/components/molecules/habit-logger.tsx:59-70 | Save makes exactly the call of SaveCall, then closes and clears the dialog. Saving is reset when a call was made. |
| HabitLogger.Logger.SelectEditOption | src/components/molecules/habit-logger.tsx:100-104 | Switching the edit option sets the type and clears the text. |
| HabitLogger.Logger.EditText | src/components/molecules/habit-logger.tsx:118 | Typing replaces the text only. |
| HabitLogger.Logger.SetOpen | src/components/molecules/habit-logger.tsx:94 | Opening or closing keeps the type and the text. |
| Motivation.CompletionRate | src/components/habits/motivation-button.tsx:38-39 | The rate is completed logs over all logs, or 0 without logs. |
| Motivation.MissReasons | src/components/habits/motivation-button.tsx:40-42 | One reason per missed log that has a non-empty reason, in log order. |
| Motivation.BuildInput | src/components/habits/motivation-button.tsx:45-49 | The request carries the habit's name and the rate. The reasons are joined with ", ", or the "no reasons" text when there are none. |
| Motivation.ReasonsAreMissedLogs | src/components/habits/motivation-button.tsx:40-43 | Every reason sent belongs to a missed log, and every missed log with a reason contributes it. |
| TasksPage.AddTaskShape | src/app/tasks/page.tsx:36-46 | All-whitespace input is exactly what leaves the list alone. Other input puts one open task with the trimmed text in front and keeps the rest. |
| TasksPage.ToggleTaskShape | src/app/tasks/page.tsx:48-54 | `ToggleTask`: exactly the tasks with the id flip, and their id and text stay. |
| TasksPage.ToggleTaskTwice | src/app/tasks/page.tsx:48-54 | `ToggleTask` twice restores the list. |
| TasksPage.DeleteTaskShape | src/app/tasks/page.tsx:56-58 | `DeleteTask`: exactly the tasks with the id are removed. An unknown id changes nothing. |
| TasksPage.PendingCompletedPartition | src/app/tasks/page.tsx:68-69 | The pending and completed lists split the tasks: each task is in the one matching its flag, every task exactly once. |
| TasksPage.TaskBoard.constructor | src/app/tasks/page.tsx:24-25 | The page starts with no tasks and an empty input. |
| TasksPage.TaskBoard.TypeTask | src/app/tasks/page.tsx:126 | Typing sets the input only. |
| TasksPage.TaskBoard.SubmitTask | src/app/tasks/page.tsx:36-46 | Submitting applies AddTask. The input is cleared only when a task was added. |
| TasksPage.TaskBoard.Toggle | src/app/tasks/page.tsx:48-54 | The list becomes the toggled list. |
| TasksPage.TaskBoard.Delete | src/app/tasks/page.tsx:56-58 | The list loses the tasks with the id. |
| FinancePage.Totals | src/app/finance/page.tsx:85-96 | The `reduce` yields the income sum, the sum of everything else, and their difference as the balance. |
| FinancePage.TotalsCoverAll | src/app/finance/page.tsx:85-96 | Every transaction counts in exactly one total: the two add up to the sum of all amounts. |
| FinancePage.LaterFirstOrder | src/app/finance/page.tsx:57 | The later-date-first comparator is a strict weak order. |
| FinancePage.AddTransactionShape | src/app/finance/page.tsx:55-57 | The result is the old list plus the new transaction, sorted newest first. On a sorted list the new one lands after the strictly later dates, before its own date's peers. |
| FinancePage.UpdateTransactionShape | src/app/finance/page.tsx:64-68 | The length is kept and the updated transaction replaces its id. The result is sorted newest first, and an unknown id leaves a sorted list unchanged. |
| FinancePage.DeleteTransactionShape | src/app/finance/page.tsx:76-77 | `DeleteTransaction`: exactly the transactions with the id are removed, and date order is kept. |
| FinancePage.OfferedCategoriesShape | src/app/finance/page.tsx:20-23 | Each type offers distinct, non-empty names ending with "Lainnya". |
| FinancePage.FormDraft | src/app/finance/page.tsx:342-352 | Nothing is submitted exactly when the description, the amount or both category fields are empty. Otherwise the draft is dated today and a custom category wins. |
| FinancePage.AddForm.constructor | src/app/finance/page.tsx:336-340 | The form starts empty with type expense. |
| FinancePage.AddForm.Fill | src/app/finance/page.tsx:367-402 | The inputs set the form's fields. |
| FinancePage.AddForm.Submit | src/app/finance/page.tsx:342-358 | Submit hands over FormDraft's draft. The text fields are cleared only on success, and the type is kept. |
| FinancePage.EditedTransaction | src/app/finance/page.tsx:426-435 | The edited fields overwrite the original, which keeps its id and date. |
| FinancePage.FinanceBoard.constructor | src/app/finance/page.tsx:42-45 | The page starts with the stored list and no edit dialog. |
| FinancePage.FinanceBoard.Add | src/app/finance/page.tsx:55-57 | The list becomes AddTransaction of the draft. |
| FinancePage.FinanceBoard.StartEdit | src/app/finance/page.tsx:293 | The edit dialog opens on the transaction. |
| FinancePage.FinanceBoard.CloseEdit | src/app/finance/page.tsx:323 | The edit dialog closes and the list stays. |
| FinancePage.FinanceBoard.Update | src/app/finance/page.tsx:64-69 | The list becomes UpdateTransaction and the dialog closes. |
| FinancePage.FinanceBoard.Delete | src/app/finance/page.tsx:76-78 | The list loses the id and the dialog closes. |
| FinanceReports.PreviousMonth | src/app/finance/reports/page.tsx:69 | The month before is one month earlier, and it is December exactly when the current month is January. |
| FinanceReports.FilterTransactionsShape | src/app/finance/reports/page.tsx:61-76 | `FilterTransactions`: "this month" keeps exactly today's month and year. "Last month" keeps the previous month, across a year boundary. "All" keeps the list. |
| FinanceReports.Add | src/app/finance/reports/page.tsx:90-94 | Income goes to the income side and anything else to the other side. |
| FinanceReports.MonthEntries | src/app/finance/reports/page.tsx:97 | One bar per label, carrying that label's income and other sums. |
| FinanceReports.MonthlySpec | src/app/finance/reports/page.tsx:82-98 | One bar per month label in use, in reverse order of first appearance, with no label twice. |
| FinanceReports.MonthlySummary | src/app/finance/reports/page.tsx:82-98 | The dictionary fold and reversal return exactly MonthlySpec. |
| FinanceReports.MonthlyFold | src/app/finance/reports/page.tsx:85-95 | After the `forEach` the keys are the labels in order of first use, and each entry holds its label's two sums. |
| FinanceReports.MonthlyStep | src/app/finance/reports/page.tsx:86-94 | One step keeps the dictionary and the key order in step with the transactions seen. |
| FinanceReports.MonthSumsStep | src/app/finance/reports/page.tsx:87-94 | A new label starts at zero, and adding the amount to its side keeps every entry's sums. |
| FinanceReports.MonthRecords | src/app/finance/reports/page.tsx:97 | `Object.entries(...).map` gives one bar per key in key order. |
| FinanceReports.MonthRecordsMatch | src/app/finance/reports/page.tsx:97 | After the fold the records are the bars in order of first appearance. |
| FinanceReports.MonthlyBars | src/app/finance/reports/page.tsx:82-98 | Each bar holds the income sum and the other sum over exactly the transactions with its label. |
| FinanceReports.MonthlyCovers | src/app/finance/reports/page.tsx:82-98 | Every transaction's label has a bar, and every bar's label is some transaction's. |
| FinanceReports.MonthlyTotals | src/app/finance/reports/page.tsx:82-98 | The bars add up to the page's income and expense totals. |
| FinanceReports.LargerFirstOrder | src/app/finance/reports/page.tsx:110 | The `b.value - a.value` comparator is a strict weak order. |
| FinanceReports.CategoryEntries | src/app/finance/reports/page.tsx:110 | One slice per category, carrying that category's expense sum. |
| FinanceReports.CategorySummary | src/app/finance/reports/page.tsx:100-111 | The filter, fold, records and sort return exactly `CategorySpec`, the category specification. |
| FinanceReports.Restarted | src/app/finance/reports/page.tsx:104-106 | The falsy-zero restart gives the stored sum, or zero when there is none. |
| FinanceReports.CategoryFold | src/app/finance/reports/page.tsx:103-108 | After the `forEach` the keys are the categories in order of first use, and each entry is its category's sum. |
| FinanceReports.CategoryRecords | src/app/finance/reports/page.tsx:110 | One slice per key, in key order. |
| FinanceReports.CategoryRecordsMatch | src/app/finance/reports/page.tsx:110 | After the fold the records are the unsorted slices. |
| FinanceReports.ExpensesAreNotIncome | src/app/finance/reports/page.tsx:103 | Keeping `type === 'expense'` is keeping what is not income. |
| FinanceReports.CategoryShape | src/app/finance/reports/page.tsx:110 | `CategorySpec`'s slices are sorted largest value first, and no category appears twice. |
| FinanceReports.CategoryMembers | src/app/finance/reports/page.tsx:100-111 | `CategorySpec` has a slice exactly for each expense category, holding that category's expense sum. Income never enters a slice. |
| FinanceReports.CategoryTotal | src/app/finance/reports/page.tsx:100-111 | `CategorySpec`'s slices add up to the page's expense total. |
| LearningPage.TrimLines | src/app/learning/page.tsx:406 | Each line is replaced by its trimmed form. |
| LearningPage.ParseStepsTitles | src/app/learning/page.tsx:406 | Every title `ParseSteps` returns (split, trim, drop empty) is non-empty, trimmed and on one line. |
| LearningPage.StepsRoundTrip | src/app/learning/page.tsx:474-478 | `ParseSteps` of the titles joined with newlines gives back the same titles in order. |
| LearningPage.SubmitRoadmapForm | src/app/learning/page.tsx:404-409 | The form submits exactly when the trimmed topic is non-empty and some step remains, and it sends the trimmed topic and the parsed steps. |
| LearningPage.NewSteps | src/app/learning/page.tsx:64-69 | The outline's steps keep their titles and descriptions and start unfinished. |
| LearningPage.CreateRoadmapShape | src/app/learning/page.tsx:57-71 | The new roadmap goes in front with the topic and one unfinished step per title. The others follow unchanged. |
| LearningPage.FindStepByTitle | src/app/learning/page.tsx:91 | `find` yields a step with the title, and nothing exactly when none has it. |
| LearningPage.FindStepByTitleFirst | src/app/learning/page.tsx:91 | The step found is the first with the title. |
| LearningPage.UpdatedSteps | src/app/learning/page.tsx:89-98 | One step per title, in the titles' order. |
| LearningPage.UpdateRoadmapShape | src/app/learning/page.tsx:80-103 | Only the roadmap with the id changes: it gets the topic and one step per title. A known title keeps the first existing step with that title, completion included, and a new one starts unfinished. |
| LearningPage.UpdateWithSameTitles | src/app/learning/page.tsx:89-98 | Resubmitting a roadmap's own distinct titles leaves it unchanged. |
| LearningPage.DeleteRoadmapShape | src/app/learning/page.tsx:112-115 | `DeleteRoadmap`: exactly the roadmaps with the id are removed. An unknown id changes nothing. |
| LearningPage.ToggleStepShape | src/app/learning/page.tsx:117-131 | A step's completion flips exactly when both ids match. Each step equals its old self except for that flag, and the other roadmaps are unchanged. |
| LearningPage.ToggleTwice | src/app/learning/page.tsx:117-131 | Toggling twice restores the list. |
| LearningPage.CompletedCount | src/app/learning/page.tsx:135 | At most the number of steps are completed. |
| LearningPage.ProgressBounds | src/app/learning/page.tsx:133-137 | Progress is at most 100. It is 100 when all of at least one step are done, and 0 when none are. |
| LearningPage.LearningBoard.constructor | src/app/learning/page.tsx:30-33 | The page starts with the stored roadmaps and no edit dialog. |
| LearningPage.LearningBoard.Create | src/app/learning/page.tsx:57-71 | The list becomes CreateRoadmap. |
| LearningPage.LearningBoard.StartEdit | src/app/learning/page.tsx:320 | The edit dialog opens on the roadmap. |
| LearningPage.LearningBoard.CloseEdit | src/app/learning/page.tsx:387 | The edit dialog closes and the list stays. |
| LearningPage.LearningBoard.Update | src/app/learning/page.tsx:80-104 | The list becomes UpdateRoadmap and the dialog closes. |
| LearningPage.LearningBoard.Delete | src/app/learning/page.tsx:112-115 | The list loses the id and the dialog closes. |
| LearningPage.LearningBoard.Toggle | src/app/learning/page.tsx:117-131 | The list becomes ToggleStep. |
| LearningPage.LearningBoard.SubmitNew | src/app/learning/page.tsx:404-409 | A rejected form changes nothing. An accepted one creates the roadmap from the trimmed topic and parsed steps. |
| RoadmapFlow.GenerateRoadmap | src/ai/flows/learning-roadmap-flow.ts:40-52 | The outline keeps the topic and one step per title, in order, each with an empty description. |
| LearningReportCard.CardFigures | src/components/organisms/learning-report-card.tsx:16-18 | Completed is the page's count of completed steps and at most the total, and the total is the number of steps. |
| LearningReportCard.CardMatchesPage | src/components/organisms/learning-report-card.tsx:16-18 | The card's percentage equals the learning page's progress and is at most 100. |
| LearningReportCard.ChartCoversSteps | src/components/organisms/learning-report-card.tsx:20-23 | Two non-negative slices that together are all the steps. |
| LearningExport.RoadmapRows | src/app/learning/reports/page.tsx:64-75 | One row per step in order, with its topic, title and status. A roadmap without steps gets the single "Tidak ada langkah"/"N/A" row. |
| LearningExport.ExportRowsCount | src/app/learning/reports/page.tsx:63-76 | `ExportRows`, the `flatMap`, has max(1, number of steps) rows per roadmap. |
| LearningExport.ExportRowsConcat | src/app/learning/reports/page.tsx:63-76 | `ExportRows` follows roadmap order. |
| LearningExport.Escape | src/app/learning/reports/page.tsx:79 | Doubling quotes never shortens a value. |
| LearningExport.Lines | src/app/learning/reports/page.tsx:79 | One CSV line per row. |
| LearningExport.Export | src/app/learning/reports/page.tsx:53-79 | Nothing is exported exactly when there are no roadmaps. Otherwise the result is the CSV document of the rows. |
| LearningExport.ParseLineRoundTrip | src/app/learning/reports/page.tsx:79 | Every quoted line reads back to its row, commas and quotes inside fields included. |
| LearningExport.LineOneLine | src/app/learning/reports/page.tsx:79 | A row without line breaks gives a line without line breaks. |
| LearningExport.ParseLinesRoundTrip | src/app/learning/reports/page.tsx:79 | The lines of the rows read back to the rows. |
| LearningExport.DocumentRoundTrip | src/app/learning/reports/page.tsx:78-79 | Without line breaks in fields, `Document` has the header plus one line per row, and reading it gives the rows back. |
| LearningExport.ExportRowsOneLine | src/app/learning/reports/page.tsx:63-76 | `ExportRows` has no line breaks when topics and titles have none. |
| LearningExport.RoadmapRowsOneLine | src/app/learning/reports/page.tsx:64-75 | One roadmap's rows have no line breaks when its topic and titles have none. |
| SeqUtil.Filter | src/app/tasks/page.tsx:68-69 | `filter` keeps only passing elements and never lengthens. |
| SeqUtil.FilterMembers | src/app/tasks/page.tsx:57 | An element is kept exactly when it is in the list and passes. |
| SeqUtil.FilterPartition | src/app/tasks/page.tsx:68-69 | A filter and its complement split the list: the lengths add up and the multisets join to the list's. |
| SeqUtil.FirstSeen | src/app/habits/page.tsx:105-108 | Dictionary keys hold each distinct element once, and exactly the elements of the list. |
| SeqUtil.FirstSeenOrder | src/app/habits/page.tsx:105-108 | Keys come in the order of their first appearance. |
| SeqUtil.KeySumFiltered | src/app/finance/reports/page.tsx:103-108 | A key's running sum is the sum over the elements with that key. |
| SeqUtil.KeyedStep | src/app/finance/reports/page.tsx:103-108 | One step of a running-sum fold keeps the key order and the sums in step. |
| SeqUtil.GroupSumTotal | src/app/finance/reports/page.tsx:100-110 | The per-key sums add up to the sum over the whole list. |
| StableSort.Sort | src/app/finance/page.tsx:57 | Sorting keeps the length and is a permutation. |
| StableSort.SortSorted | src/app/finance/page.tsx:57 | The result is sorted under any strict weak order. |
| StableSort.SortOfSorted | src/app/finance/page.tsx:57 | A sorted list is left as it is. |
| StableSort.SortStable | src/app/finance/page.tsx:57 | Elements that tie under the comparator come out of the sort in their input order. |
| StableSort.InsertAt | src/app/finance/page.tsx:57 | An element is inserted right after the elements strictly before it, so it precedes every element it ties with. |
| StableSort.SortSum | src/app/finance/reports/page.tsx:110 | Sorting keeps the sum of any field. |
| StableSort.SortDistinct | src/app/finance/reports/page.tsx:110 | Sorting keeps a field that is distinct across the list distinct. |
| StableSort.FilterSorted | src/app/finance/page.tsx:77 | Filtering keeps a sorted list sorted. |
| Text.Trim | src/app/tasks/page.tsx:38 | `trim` leaves no whitespace at either end and never lengthens. |
| Text.TrimInfix | src/app/tasks/page.tsx:41 | Trimming removes only leading and trailing whitespace, and the result is a slice of the input. |
| Text.TrimOfTrimmed | src/app/tasks/page.tsx:41 | A trimmed string trims to itself, so trimming is idempotent. |
| Text.TrimEmpty | src/app/tasks/page.tsx:38 | A string trims to empty exactly when it is all whitespace. |
| Text.Split | src/app/learning/page.tsx:406 | `split` gives at least one piece, and no piece contains the separator. |
| Text.JoinSplit | src/app/learning/page.tsx:474-478 | Joining the pieces of a split gives the string back. |
| Text.SplitJoin | src/app/learning/page.tsx:474-478 | Splitting a join of separator-free pieces gives the pieces back. |

## Left out

- Time zones. Dates are modelled in UTC: `today` is a calendar date, and `toISOString().split('T')[0]` is its key. The local-time/UTC difference of `new Date()`, `getDate()` and `getHours()` is not modelled. Neither is `new Date(tx.date)` reading a key as UTC midnight and `getMonth()` reading it in local time.
- DateRange.PushMonthly: it uses the bound the code evidently intends (today's day-of-month). The bound as written is modelled by DateRange.PushMonthlyAsWritten; see Findings. Daylight-saving shifts of that bound are not modelled.
- Dates with a year outside 1..9999 are excluded by the `requires` of the range functions: keys have four-digit years, and the week before January 1 of year 1 would fall in year 0.
- Percent.RoundPercent: rounds the exact ratio, half up. The source computes `(completed / total) * 100` in double precision before `Math.round` (src/app/learning/page.tsx:136, src/components/organisms/learning-report-card.tsx:18). There an exact half can land just below .5 and round down. With 23 of 40 steps done the double is 57.49999999999999, so the source shows 57 and the model 58. 29 of 200 (source 14, model 15) and 46/80, 69/120, 92/160, 57/200, 113/200, 115/200 differ the same way. The same gap applies to LearningPage.CalculateProgress, LearningPage.ProgressBounds and LearningReportCard.CardFigures. It does not apply to the habit report card: with a total of 7 no ratio is an exact half, and ReportCard.CompletionRateTable lists its values.
- FinanceReports.CategorySummary: the category dictionary is a map, which has no inherited keys. The source's plain object does, and a custom category name is free text (src/app/finance/page.tsx:351). For an expense category named "constructor", `!summary[c]` reads the inherited `Object` function and is false. The `+=` then stores a string, and the `b.value - a.value` sort compares NaN. For "__proto__" the assignment is ignored, and that category's amount is missing from the slices. The model gives each of these a numeric slice, so FinanceReports.CategoryMembers and FinanceReports.CategoryTotal hold in the source only for names that are not `Object.prototype` members.
- FinanceReports.Restarted: a missing key and a zero entry restart at zero, as in the source. An inherited `Object.prototype` key, which the source also finds truthy, is not modelled; see FinanceReports.CategorySummary.
- FinanceReports.CategoryFold: each entry is its category's sum only for category names that are not `Object.prototype` members; see FinanceReports.CategorySummary.
- Amounts are whole numbers (`int`). `parseFloat`, floating-point sums and `Intl.NumberFormat` are not modelled, and the amount a form submits is a parameter.
- FinanceReports.LabelOf: the `toLocaleString('id-ID', { month: 'short', year: '2-digit' })` month label is modelled as (year mod 100, month). A key that does not parse gets one `InvalidDate` label, standing for "Invalid Date".
- Dictionary key order is insertion order. JavaScript puts integer-like keys first, but month labels and category names are not integer-like in practice.
- Comparison with `localeCompare` is modelled as code-unit lexicographic order, which agrees with it on `YYYY-MM-DD` keys.
- `Date.now()` is a parameter `now`. The source reads the clock once per id it makes. Creating a roadmap reads it 1 + (number of steps) times: once for the roadmap id and once per step inside the `map` (src/app/learning/page.tsx:62, 65). Updating a roadmap reads it once per new title (src/app/learning/page.tsx:93). LearningPage.NewSteps, LearningPage.CreateRoadmapShape and LearningPage.UpdatedSteps use one `now` throughout, so the model's step ids share one timestamp and differ only by index.
- The `isSaving`/`isGenerating` flags around awaited calls are modelled only where they change state the logic reads (HabitLogger.Logger.Save). Awaiting, failures and the `finally` blocks are left out.
- Fetch calls, `sessionStorage`, routing, the login redirect, toasts, dialogs' open flags other than the edit dialogs, and rendering are not modelled. Handlers are modelled after a successful response, with the returned object as a parameter.
- Deleting a habit reloads the list from the server, which is outside this model.
- The LLM call behind the motivation tip: the model stops at the request the button builds (Motivation.BuildInput).
- `cn`, `encodeURI` and the download link of the CSV export are not modelled. The model stops at the CSV text.
- The per-category filter inside the dashboard's JSX (which habits show under each row) is not modelled. The rows shown are (Dashboard.FilteredCategoriesShape).
- LearningPage.UpdatedSteps: when titles repeat, the same existing step is reused for each repeat, so two entries share an id. The model reproduces this and does not state it as a property.
- The API routes, the Prisma seed and the print-preview pages are not part of this model.

## Findings

| source | as written | input that shows it | evidently intended | confidence | as-written member | corrected member |
|---|---|---|---|---|---|---|
| src/lib/utils.ts:24-25 | The monthly loop runs while `i` is below the time since midnight on the 1st, in days, plus one. That bound is fractional whenever the current time is past midnight. | Today is the 15th at 12:00. The bound is 15.5, the loop runs 16 times and pushes the 16th, which is tomorrow. On a month's last day it pushes the next month's 1st. | The keys of the 1st through today: today's day-of-month keys. | not executed | DateRange.PushMonthlyAsWritten with DateRange.TomorrowOutsideMonthly | DateRange.PushMonthly with DateRange.MonthlyRange |
