# Goal 2026 planner: a verified model of its rules

This project models the rule-bearing core of a personal planner app for Android and
Compose Multiplatform, written in Kotlin. It covers:

- the goal view model's milestone toggle and progress, note pinning, and day queries;
- the calendar day built from tasks, events, reminders and notes;
- the habit and journal statistics with their streaks;
- the cloud-sync guard;
- the task store (upsert, delete, completion toggle, seeding);
- finance totals, debt settlement and the CSV export;
- the task list's filters, search, sort and groups;
- the task statistics header and the task editor;
- the PIN lock screen;
- the month grid of the calendar screen.

Timestamps are integer epoch milliseconds and amounts are integers. Days are
fixed 24-hour buckets, `StartOfDay(t) = t - t % 86400000`. Storage is a sequence field of
the class that owns it. The clock, generated ids, the platform calendar and text
formatting are parameters.

Modules, one per source file or shared concern:

- Wrappers, TimeUtil, Text, Ratio, Seqs (`filter` and `indexOfFirst`, shared by every
  store) and Sorting: `sortedBy` as a stable insertion sort, proved sorted, a permutation
  and stable.
- TaskModel, TaskRepository, FinanceRepository, TasksScreen, TaskCharts, TaskEditor and
  AppLock.
- CalendarGrid.
- GoalModel, Streaks, GoalQueries, GoalStats, CloudSync and GoalViewModel: the goal view
  model.

## Model

| member | source | states |
|---|---|---|
| TimeUtil.StartOfDay | app/src/main/java/com/lssgoo/goal2026/ui/viewmodel/Goal2026ViewModel.kt:539-547 | the day start of t is a multiple of a day, at or before t and less than a day before it |
| TimeUtil.StartOfDayIdempotent | app/src/main/java/com/lssgoo/planner/data/repository/TaskRepository.kt:95-103 | the day start of a day start is itself |
| TimeUtil.InDayIffSameDay | app/src/main/java/com/lssgoo/goal2026/ui/viewmodel/Goal2026ViewModel.kt:334-340 | a timestamp lies in the inclusive bucket [dayStart, dayStart + day - 1] of a date exactly when both have the same day start |
| Sorting.SortBy | app/src/main/java/com/lssgoo/goal2026/ui/viewmodel/Goal2026ViewModel.kt:346-352 | sortedBy returns a permutation of its input ordered by the key |
| Sorting.SortStable | app/src/main/java/com/lssgoo/goal2026/ui/viewmodel/Goal2026ViewModel.kt:717 | sortedBy is stable: the elements with any one key keep their input order |
| Sorting.TwoKeySplit | app/src/main/java/com/lssgoo/goal2026/ui/viewmodel/Goal2026ViewModel.kt:289 | a list sorted on a two-valued key is its first-key elements followed by its second-key elements |
| Text.Dedup | app/src/main/java/com/lssgoo/goal2026/ui/viewmodel/Goal2026ViewModel.kt:784 | distinct() keeps each element once and loses none |
| Text.DedupFirstUseOrder | app/src/main/java/com/lssgoo/goal2026/ui/viewmodel/Goal2026ViewModel.kt:784 | distinct() keeps first-occurrence order: every occurrence of a later survivor comes after an occurrence of each earlier one |
| TaskModel.ColorForTag | app/src/main/java/com/lssgoo/planner/features/tasks/models/Task.kt:45-52 | a tag has its own colour exactly when it is one of the five named tags; OTHER and unknown strings are grey |
| TaskModel.TagColorsDistinct | app/src/main/java/com/lssgoo/planner/features/tasks/models/Task.kt:45-52 | the five named tags have pairwise different colours |
| TaskModel.AllTagsDistinct | app/src/main/java/com/lssgoo/planner/features/tasks/models/Task.kt:36-43 | the tag list holds six distinct tags |
| TaskModel.PrioritiesDistinct | app/src/main/java/com/lssgoo/planner/features/tasks/models/Task.kt:77-82 | four priority levels with distinct display names and colours |
| TaskModel.NewTask | app/src/main/java/com/lssgoo/planner/features/tasks/models/Task.kt:9-30 | a new task is incomplete, MEDIUM, undated, untagged, without subtasks or completion time, created and updated now |
| TaskModel.NewHabitEntry | app/src/main/java/com/lssgoo/planner/features/tasks/models/Task.kt:129-135 | a new habit entry is not completed and has empty notes |
| Seqs.IndexOfFirst | app/src/main/java/com/lssgoo/planner/data/repository/TaskRepository.kt:59 | indexOfFirst: the first index whose element passes, or none exactly when none passes; the task, transaction, goal and note lookups are this with an id test |
| Seqs.Filter | app/src/main/java/com/lssgoo/planner/data/repository/TaskRepository.kt:69 | filter keeps exactly the elements that pass and never grows the list |
| Seqs.FilterAppend | app/src/main/java/com/lssgoo/planner/data/repository/TaskRepository.kt:69 | filter keeps the survivors in order: the filter of a concatenation is the concatenation of the filters |
| Seqs.FilterOne | app/src/main/java/com/lssgoo/planner/data/repository/TaskRepository.kt:69 | a single element is kept exactly when it passes (with FilterAppend this determines the filter) |
| Seqs.FilterAllOrNone | app/src/main/java/com/lssgoo/planner/data/repository/TaskRepository.kt:69 | a list whose every element passes is kept whole, and one where none passes is emptied |
| TaskRepository.TaskRepository.GetTasks | app/src/main/java/com/lssgoo/planner/data/repository/TaskRepository.kt:13-19 | an empty store is seeded with the four defaults, saved and returned; otherwise the stored list is returned unchanged |
| TaskRepository.TaskRepository.SaveTask | app/src/main/java/com/lssgoo/planner/data/repository/TaskRepository.kt:57-66 | the stored list becomes the upsert of the task |
| TaskRepository.TaskRepository.DeleteTask | app/src/main/java/com/lssgoo/planner/data/repository/TaskRepository.kt:68-71 | the stored list loses every task with that id |
| TaskRepository.TaskRepository.ToggleTaskCompletion | app/src/main/java/com/lssgoo/planner/data/repository/TaskRepository.kt:73-85 | the stored list becomes the toggle of that id; an unknown id saves nothing |
| TaskRepository.UpsertExisting | app/src/main/java/com/lssgoo/planner/data/repository/TaskRepository.kt:57-66 | saving a stored id replaces the first such entry in place with updatedAt refreshed; length and other entries unchanged |
| TaskRepository.UpsertNew | app/src/main/java/com/lssgoo/planner/data/repository/TaskRepository.kt:57-66 | saving a new id inserts it at index 0 and shifts the rest unchanged |
| TaskRepository.UpsertThenFind | app/src/main/java/com/lssgoo/planner/data/repository/TaskRepository.kt:57-66 | after a save, looking the id up finds the saved task |
| TaskRepository.WithoutMembers | app/src/main/java/com/lssgoo/planner/data/repository/TaskRepository.kt:68-71 | delete keeps exactly the tasks with another id |
| TaskRepository.DeleteKeepsOrder | app/src/main/java/com/lssgoo/planner/data/repository/TaskRepository.kt:68-71 | delete keeps the survivors in stored order: deleting from a concatenation deletes from each part, and a stretch without the id is kept whole |
| TaskRepository.DeleteIdempotent | app/src/main/java/com/lssgoo/planner/data/repository/TaskRepository.kt:68-71 | deleting twice equals deleting once |
| TaskRepository.DeleteCount | app/src/main/java/com/lssgoo/planner/data/repository/TaskRepository.kt:68-71 | the length drops by the number of tasks with that id |
| TaskRepository.ToggleFlipsFirst | app/src/main/java/com/lssgoo/planner/data/repository/TaskRepository.kt:73-85 | the first task with the id flips completion, completedAt is set exactly when it becomes complete, the others are unchanged |
| TaskRepository.ToggleTwice | app/src/main/java/com/lssgoo/planner/data/repository/TaskRepository.kt:73-85 | toggling twice restores every completion flag; only timestamps differ |
| TaskRepository.DefaultsDueToday | app/src/main/java/com/lssgoo/planner/data/repository/TaskRepository.kt:21-55 | the seed is four incomplete tasks all due inside today and all returned by the day query |
| TaskRepository.TasksForDateMembers | app/src/main/java/com/lssgoo/planner/data/repository/TaskRepository.kt:87-93 | the day query keeps exactly the dated tasks inside the inclusive day bucket, which is the set of times sharing the day start |
| TaskRepository.TasksForDateKeepsOrder | app/src/main/java/com/lssgoo/planner/data/repository/TaskRepository.kt:87-93 | the day query keeps the stored order: the query over a concatenation is the query over each part, and one task is returned exactly when it is due that day |
| FinanceRepository.BalanceIsSignedSum | app/src/main/java/com/lssgoo/planner/data/repository/FinanceRepository.kt:63-66 | the balance formula equals the sum of each transaction's own contribution |
| FinanceRepository.SettledFlagOnlyAffectsDebts | app/src/main/java/com/lssgoo/planner/data/repository/FinanceRepository.kt:63-66 | income and expense count whatever the settled flag; a settled debt counts in neither debt total |
| FinanceRepository.CategorySpendingSums | app/src/main/java/com/lssgoo/planner/data/repository/FinanceRepository.kt:69-71 | category keys are exactly the categories with an expense, and the values add up to the expense total |
| FinanceRepository.DailySpendingKeys | app/src/main/java/com/lssgoo/planner/data/repository/FinanceRepository.kt:80-82 | daily spending is keyed by day start over in-window expenses only, each such day present |
| FinanceRepository.DailyMatchesTrend | app/src/main/java/com/lssgoo/planner/data/repository/FinanceRepository.kt:84-90 | each spending day is a trend day whose expense half equals that day's spending; other trend days have expense 0 |
| FinanceRepository.RecentAndRecurring | app/src/main/java/com/lssgoo/planner/data/repository/FinanceRepository.kt:93-106 | recent transactions are the first ten in stored order; upcoming recurring are exactly the recurring ones |
| FinanceRepository.FinanceRepository.SettleDebt | app/src/main/java/com/lssgoo/planner/data/repository/FinanceRepository.kt:40-57 | the transactions and logs become the settled lists |
| FinanceRepository.SettleLogText | app/src/main/java/com/lssgoo/planner/data/repository/FinanceRepository.kt:50-54 | the settlement log names the debt's type and then the currency sign exactly as the app spells it ("\u00E2\u201A\u00B9", not "\u20B9"), and ends with the person or "someone" |
| FinanceRepository.SettleOnlyMatching | app/src/main/java/com/lssgoo/planner/data/repository/FinanceRepository.kt:40-57 | settling marks the first transaction with the id settled, whatever its type, changes nothing else, and prepends one SETTLED TRANSACTION log entry |
| FinanceRepository.SettleTwice | app/src/main/java/com/lssgoo/planner/data/repository/FinanceRepository.kt:40-57 | settling twice leaves the transactions as after once while the log grows by one entry per call; an unknown id changes neither list |
| FinanceRepository.SettleBalance | app/src/main/java/com/lssgoo/planner/data/repository/FinanceRepository.kt:40-57 | settling an open loan raises the balance by its amount, an open borrowing lowers it, anything else leaves it |
| FinanceRepository.FinanceRepository.GenerateTransactionsCsv | app/src/main/java/com/lssgoo/planner/data/repository/FinanceRepository.kt:113-130 | the export loop produces the header followed by one line per transaction in stored order |
| FinanceRepository.CsvLineCount | app/src/main/java/com/lssgoo/planner/data/repository/FinanceRepository.kt:113-130 | with single-line fields the export has one line break per transaction plus the header's |
| TasksScreen.Filtered | composeApp/src/commonMain/kotlin/com/lssgoo/planner/features/tasks/screens/TasksScreen.kt:54-67 | the filtered list holds exactly the stored tasks matching both the tab and the search |
| TasksScreen.FilteredKeepsOrder | composeApp/src/commonMain/kotlin/com/lssgoo/planner/features/tasks/screens/TasksScreen.kt:54-67 | the filtered list keeps the stored order: filtering a concatenation filters each part, and one task is kept exactly when it matches both the tab and the search |
| TasksScreen.OverdueDisjoint | composeApp/src/commonMain/kotlin/com/lssgoo/planner/features/tasks/screens/TasksScreen.kt:54-67 | OVERDUE shares no task with COMPLETED or with UPCOMING |
| TasksScreen.TodayIsTheDayBucket | composeApp/src/commonMain/kotlin/com/lssgoo/planner/features/tasks/screens/TasksScreen.kt:48-58 | TODAY is the current day's bucket, completed tasks included |
| TasksScreen.SearchAndAll | composeApp/src/commonMain/kotlin/com/lssgoo/planner/features/tasks/screens/TasksScreen.kt:63-64 | an empty query keeps every task; ALL keeps exactly the tasks matching the search |
| TasksScreen.SortOrder | composeApp/src/commonMain/kotlin/com/lssgoo/planner/features/tasks/screens/TasksScreen.kt:71-73 | the sorted list is a permutation with incomplete tasks first and due dates ascending within each part, undated last |
| TasksScreen.GroupsPartition | composeApp/src/commonMain/kotlin/com/lssgoo/planner/features/tasks/screens/TasksScreen.kt:70-85 | the groups partition the sorted tasks under distinct labels, listed in the order the labels first appear in the sorted list, and completed tasks are always in the Completed group |
| TasksScreen.GroupByPartitions | composeApp/src/commonMain/kotlin/com/lssgoo/planner/features/tasks/screens/TasksScreen.kt:74-84 | groupBy yields distinct labels, each group holding exactly its tasks in order, and a group comes before another exactly when its label is first used earlier |
| TasksScreen.LaterLabelNotFirst | composeApp/src/commonMain/kotlin/com/lssgoo/planner/features/tasks/screens/TasksScreen.kt:74-84 | of two tasks with different labels, the first one's group comes first and the reverse listing is not in first-appearance order |
| TasksScreen.LabelByDay | composeApp/src/commonMain/kotlin/com/lssgoo/planner/features/tasks/screens/TasksScreen.kt:76-83 | an incomplete dated task is Overdue before today, Today on the day, Tomorrow on the next day, and a date label later |
| TaskCharts.CountsConsistent | composeApp/src/commonMain/kotlin/com/lssgoo/planner/features/tasks/components/TaskCharts.kt:29-34 | pending + completed = total; high-priority and overdue are at most pending; progress is in [0, 1], 1 exactly when all of a non-empty list are done, 0 for none |
| TaskCharts.HeadlineEmptyOnly | composeApp/src/commonMain/kotlin/com/lssgoo/planner/features/tasks/components/TaskCharts.kt:66 | only an empty list reads "No tasks yet"; otherwise the headline starts with the completed count |
| TaskCharts.BadgesShownWhenPositive | composeApp/src/commonMain/kotlin/com/lssgoo/planner/features/tasks/components/TaskCharts.kt:108-115 | the overdue and high-priority badges appear exactly when their counts are positive |
| TaskEditor.TaskEditor.constructor | composeApp/src/commonMain/kotlin/com/lssgoo/planner/features/tasks/components/TaskEditorSheet.kt:34-39 | the editor starts from the edited task, or blank with MEDIUM priority, no date and no tags |
| TaskEditor.TaskEditor.EditTitle | composeApp/src/commonMain/kotlin/com/lssgoo/planner/features/tasks/components/TaskEditorSheet.kt:73-75 | the title becomes the typed text, nothing else changes, and saving is enabled exactly when that text is not blank |
| TaskEditor.TaskEditor.EditDescription | composeApp/src/commonMain/kotlin/com/lssgoo/planner/features/tasks/components/TaskEditorSheet.kt:81-83 | the notes become the typed text, nothing else changes, and whether saving is enabled is unchanged |
| TaskEditor.TaskEditor.SelectPriority | composeApp/src/commonMain/kotlin/com/lssgoo/planner/features/tasks/components/TaskEditorSheet.kt:94-96 | the priority becomes the tapped chip's priority and nothing else changes |
| TaskEditor.TaskEditor.ToggleTag | composeApp/src/commonMain/kotlin/com/lssgoo/planner/features/tasks/components/TaskEditorSheet.kt:119 | the selected tags become the toggled set |
| TaskEditor.TaskEditor.ClearDueDate | composeApp/src/commonMain/kotlin/com/lssgoo/planner/features/tasks/components/TaskEditorSheet.kt:154 | the due date becomes none and nothing else changes |
| TaskEditor.TaskEditor.ConfirmDate | composeApp/src/commonMain/kotlin/com/lssgoo/planner/features/tasks/components/TaskEditorSheet.kt:192 | the due date becomes the picked value |
| TaskEditor.TaskEditor.Save | composeApp/src/commonMain/kotlin/com/lssgoo/planner/features/tasks/components/TaskEditorSheet.kt:165-177 | no task while the title is blank; otherwise the task built from the editor |
| TaskEditor.ToggleFlipsMembership | composeApp/src/commonMain/kotlin/com/lssgoo/planner/features/tasks/components/TaskEditorSheet.kt:119 | a toggle flips membership of that tag only and keeps the tags distinct |
| TaskEditor.ToggleTwiceRestoresSet | composeApp/src/commonMain/kotlin/com/lssgoo/planner/features/tasks/components/TaskEditorSheet.kt:119 | toggling a tag twice restores the selected set |
| TaskEditor.BuildTaskIdentity | composeApp/src/commonMain/kotlin/com/lssgoo/planner/features/tasks/components/TaskEditorSheet.kt:165-174 | editing keeps id and createdAt, a new task gets the generated id and now; completion, completedAt and subtasks take their defaults |
| TaskEditor.ReopenAndSave | composeApp/src/commonMain/kotlin/com/lssgoo/planner/features/tasks/components/TaskEditorSheet.kt:34-39 | opening and saving a task keeps its editable content and resets its completion |
| AppLock.AppLockScreen.Tap | composeApp/src/commonMain/kotlin/com/lssgoo/planner/features/settings/screens/AppLockScreen.kt:264-271 | a press moves the screen state to the step function of the old state |
| AppLock.AppLockScreen.EmitIfComplete | composeApp/src/commonMain/kotlin/com/lssgoo/planner/features/settings/screens/AppLockScreen.kt:202-207 | a four-character buffer is handed to the screen and cleared |
| AppLock.StepKeepsInv | composeApp/src/commonMain/kotlin/com/lssgoo/planner/features/settings/screens/AppLockScreen.kt:264-271 | every press keeps the buffer below four characters, empty on the overview, and the disable screen only while a PIN is set |
| AppLock.RunKeepsInv | composeApp/src/commonMain/kotlin/com/lssgoo/planner/features/settings/screens/AppLockScreen.kt:63-124 | any sequence of presses keeps that invariant |
| AppLock.PinChangesOnlyByConfirmOrUnlock | composeApp/src/commonMain/kotlin/com/lssgoo/planner/features/settings/screens/AppLockScreen.kt:87-111 | the PIN changes only by a matching confirmation (stored) or the correct PIN on the disable screen (cleared), both back to the overview |
| AppLock.FourthDigitEmits | composeApp/src/commonMain/kotlin/com/lssgoo/planner/features/settings/screens/AppLockScreen.kt:202-207 | the fourth digit hands exactly the four typed characters to the screen and empties the buffer |
| AppLock.MismatchAndCancel | composeApp/src/commonMain/kotlin/com/lssgoo/planner/features/settings/screens/AppLockScreen.kt:76-113 | a mismatching confirmation restarts setup, a wrong PIN stays on the disable screen, Cancel returns to the overview, the PIN untouched |
| AppLock.DisableOnlyWhenSet | composeApp/src/commonMain/kotlin/com/lssgoo/planner/features/settings/screens/AppLockScreen.kt:166-180 | the remove button does nothing while no PIN is set |
| AppLock.TypeEntry | composeApp/src/commonMain/kotlin/com/lssgoo/planner/features/settings/screens/AppLockScreen.kt:202-207 | typing four characters from an empty buffer is one emission |
| AppLock.SetupThenRemove | composeApp/src/commonMain/kotlin/com/lssgoo/planner/features/settings/screens/AppLockScreen.kt:76-111 | setting a PIN and then removing it leaves no PIN on the overview |
| CalendarGrid.Grid | app/src/main/java/com/lssgoo/goal2026/ui/screens/calendar/CalendarScreen.kt:280-292 | the grid has rows x 7 cells |
| CalendarGrid.RowsBounds | app/src/main/java/com/lssgoo/goal2026/ui/screens/calendar/CalendarScreen.kt:280-281 | rows x 7 holds every cell and the last row is not empty |
| CalendarGrid.RowsRange | app/src/main/java/com/lssgoo/goal2026/ui/screens/calendar/CalendarScreen.kt:252-281 | a month of at most 31 days needs at most six rows, and at least four when it has 28 days or more |
| CalendarGrid.EachDayInOneCell | app/src/main/java/com/lssgoo/goal2026/ui/screens/calendar/CalendarScreen.kt:289-292 | each day appears in exactly one cell, at firstDayOfWeek + day - 1 |
| CalendarGrid.BlankCells | app/src/main/java/com/lssgoo/goal2026/ui/screens/calendar/CalendarScreen.kt:292-317 | a cell is blank exactly when it lies before the 1st or after the last day |
| CalendarGrid.AtMostOneToday | app/src/main/java/com/lssgoo/goal2026/ui/screens/calendar/CalendarScreen.kt:256-303 | at most one cell is marked today, and only in the current month |
| CalendarGrid.SameDayEquivalence | app/src/main/java/com/lssgoo/goal2026/ui/screens/calendar/CalendarScreen.kt:603-608 | isSameDay is reflexive, symmetric and transitive |
| CalendarGrid.AddEvent | app/src/main/java/com/lssgoo/goal2026/ui/screens/calendar/CalendarScreen.kt:578-590 | an event is created exactly when the title is not blank, with the selected date and colour |
| GoalModel.NewCalendarEvent | app/src/main/java/com/lssgoo/goal2026/data/model/Task.kt:42-55 | a new event is all-day, unlinked, with the given fields |
| Streaks.SortedDays | app/src/main/java/com/lssgoo/goal2026/ui/viewmodel/Goal2026ViewModel.kt:784 | the distinct day starts of the dates, newest first: strictly descending, day-aligned, no more than the dates |
| Streaks.StreakFrom | app/src/main/java/com/lssgoo/goal2026/ui/viewmodel/Goal2026ViewModel.kt:787-796 | the current streak never exceeds the number of days |
| Streaks.CurrentStreak | app/src/main/java/com/lssgoo/goal2026/ui/viewmodel/Goal2026ViewModel.kt:787-796 | the streak loop computes the specified current streak |
| Streaks.StreakCharacterised | app/src/main/java/com/lssgoo/goal2026/ui/viewmodel/Goal2026ViewModel.kt:787-796 | the current streak is the longest prefix where the first day is today or yesterday and each next day one or two days earlier; the next day breaks the rule |
| Streaks.CurrentStreakFacts | app/src/main/java/com/lssgoo/goal2026/ui/viewmodel/Goal2026ViewModel.kt:787-796 | the streak is 0 with no days or when the newest day is neither today nor yesterday; counted days are one or two days apart |
| Streaks.ConsecutiveDaysStreak | app/src/main/java/com/lssgoo/goal2026/ui/viewmodel/Goal2026ViewModel.kt:787-796 | activity on each of the last n days, ending today or yesterday, is a streak of n |
| Streaks.LongestStreakAsWritten | app/src/main/java/com/lssgoo/goal2026/ui/viewmodel/Goal2026ViewModel.kt:798-808 | the loop as written returns 1 for every newest-first list, empty included |
| Streaks.LongestStreak | app/src/main/java/com/lssgoo/goal2026/ui/viewmodel/Goal2026ViewModel.kt:798-808 | the corrected loop returns the longest run of consecutive days, 0 for none |
| Streaks.LongestRunIsMaximum | app/src/main/java/com/lssgoo/goal2026/ui/viewmodel/Goal2026ViewModel.kt:798-808 | the longest run bounds every run of consecutive days and is attained by one |
| Streaks.LongestStreakDiscrepancy | app/src/main/java/com/lssgoo/goal2026/ui/viewmodel/Goal2026ViewModel.kt:904-914 | on any dates the as-written loop gives 1 while the intended value is the longest run |
| Streaks.LongestRunExample | app/src/main/java/com/lssgoo/goal2026/ui/viewmodel/Goal2026ViewModel.kt:798-808 | days 6, 5, 2, 1, 0 have a longest run of 3, and no days a run of 0 |
| GoalQueries.DayBuckets | app/src/main/java/com/lssgoo/goal2026/ui/viewmodel/Goal2026ViewModel.kt:334-340 | each day query keeps exactly the records whose time lies in [dayStart, dayStart + day - 1] |
| GoalQueries.SameDaySameBucket | app/src/main/java/com/lssgoo/goal2026/ui/viewmodel/Goal2026ViewModel.kt:334-340 | two instants of the same day give the same tasks |
| GoalQueries.UpcomingTasksSpec | app/src/main/java/com/lssgoo/goal2026/ui/viewmodel/Goal2026ViewModel.kt:346-352 | at most five incomplete tasks undated or due from now, ordered by due date with undated last, none repeated beyond its stored multiplicity; any omitted one sorts after the fifth; tasks with equal due dates keep their stored order, the earliest stored shown first |
| GoalQueries.UpcomingRemindersSpec | app/src/main/java/com/lssgoo/goal2026/ui/viewmodel/Goal2026ViewModel.kt:623-629 | at most five enabled, open reminders from now, in time order, none repeated beyond its stored multiplicity; any omitted one is no earlier than the fifth; reminders at the same time keep their stored order, the earliest stored shown first |
| GoalQueries.ItemsForDateOrdered | app/src/main/java/com/lssgoo/goal2026/ui/viewmodel/Goal2026ViewModel.kt:637-718 | the calendar day is ordered by time and holds one item per task, event, reminder and note of the day |
| GoalQueries.ItemsForDateComplete | app/src/main/java/com/lssgoo/goal2026/ui/viewmodel/Goal2026ViewModel.kt:637-718 | every task, event and reminder of the day and every note with a reminder that day is on the calendar day |
| GoalQueries.ItemsForDateSound | app/src/main/java/com/lssgoo/goal2026/ui/viewmodel/Goal2026ViewModel.kt:637-718 | every item comes from a record of the day, lies in the day, and a note item's text is at most 100 characters |
| GoalQueries.FindHabit | app/src/main/java/com/lssgoo/goal2026/ui/viewmodel/Goal2026ViewModel.kt:780 | find returns the first habit with that id, or none exactly when no habit has it |
| GoalQueries.FirstEntryOnDay | app/src/main/java/com/lssgoo/goal2026/ui/viewmodel/Goal2026ViewModel.kt:750-754 | firstOrNull returns the first entry of the goal on that day, or none exactly when there is none |
| GoalQueries.ToggleHabitEntry | app/src/main/java/com/lssgoo/goal2026/ui/viewmodel/Goal2026ViewModel.kt:746-769 | nothing for an unknown habit; else the day's entry flipped, or a new completed entry dated at the tap |
| GoalQueries.ToggledEntryOnTappedDay | app/src/main/java/com/lssgoo/goal2026/ui/viewmodel/Goal2026ViewModel.kt:746-769 | whatever is saved belongs to the habit's goal and to the tapped day |
| GoalStats.TotalDays | app/src/main/java/com/lssgoo/goal2026/ui/viewmodel/Goal2026ViewModel.kt:810 | totalDays is at least 1; within the 32-bit range it is the elapsed whole days, and 1 for less than a day or a clock before creation |
| GoalStats.MaxOf | app/src/main/java/com/lssgoo/goal2026/ui/viewmodel/Goal2026ViewModel.kt:820 | maxOfOrNull: none for no dates, otherwise a member no smaller than any date |
| GoalStats.UnknownHabitStats | app/src/main/java/com/lssgoo/goal2026/ui/viewmodel/Goal2026ViewModel.kt:780 | an unknown habit reports all zeros |
| GoalStats.HabitStatsBounds | app/src/main/java/com/lssgoo/goal2026/ui/viewmodel/Goal2026ViewModel.kt:779-822 | both streaks are at most the completions, totalDays is at least 1, and the rate is completions over totalDays |
| GoalStats.HabitLastCompleted | app/src/main/java/com/lssgoo/goal2026/ui/viewmodel/Goal2026ViewModel.kt:820 | the last completion is none exactly when there is none, else the latest completed date of the goal |
| GoalStats.AverageMood | app/src/main/java/com/lssgoo/goal2026/ui/viewmodel/Goal2026ViewModel.kt:885-887 | the average times the count is the mood sum; 0 for no entries |
| GoalStats.TagCounts | app/src/main/java/com/lssgoo/goal2026/ui/viewmodel/Goal2026ViewModel.kt:916-917 | exactly the used tags with their true counts, each tag once, in order of first use |
| GoalStats.MostUsedTagsSpec | app/src/main/java/com/lssgoo/goal2026/ui/viewmodel/Goal2026ViewModel.kt:916-918 | at most five tags with their true counts, each tag once, most used first; any omitted tag is used no more than the fifth; equally used tags keep the order of first use |
| GoalStats.JournalStatsFacts | app/src/main/java/com/lssgoo/goal2026/ui/viewmodel/Goal2026ViewModel.kt:873-928 | entries this month, both streaks are at most the entries, and at most five tags |
| CloudSync.Begin | app/src/main/java/com/lssgoo/goal2026/ui/viewmodel/Goal2026ViewModel.kt:452-455 | a sync goes on exactly when none is running, and the flag is then up |
| CloudSync.FinishUpload | app/src/main/java/com/lssgoo/goal2026/ui/viewmodel/Goal2026ViewModel.kt:456-469 | after an upload the flag is down, the time set only on success, and the outcome shown |
| CloudSync.FinishDownload | app/src/main/java/com/lssgoo/goal2026/ui/viewmodel/Goal2026ViewModel.kt:480-502 | after a download the flag is down, the time set only when the data imported, and the outcome shown |
| CloudSync.BusyGuard | app/src/main/java/com/lssgoo/goal2026/ui/viewmodel/Goal2026ViewModel.kt:450-504 | while a sync runs, either sync changes nothing |
| CloudSync.SyncEnds | app/src/main/java/com/lssgoo/goal2026/ui/viewmodel/Goal2026ViewModel.kt:450-504 | a started sync ends with the flag down and sets the time exactly on success |
| CloudSync.OneSyncAtATime | app/src/main/java/com/lssgoo/goal2026/ui/viewmodel/Goal2026ViewModel.kt:450-504 | a second sync is turned away while one runs, and can start after it finishes |
| CloudSync.FailureMessages | app/src/main/java/com/lssgoo/goal2026/ui/viewmodel/Goal2026ViewModel.kt:456-502 | a failed sync never shows the success message |
| GoalViewModel.ProgressBounds | app/src/main/java/com/lssgoo/goal2026/ui/viewmodel/Goal2026ViewModel.kt:234-237 | progress lies in [0, 1] and is 1 exactly when there are milestones and all are completed |
| GoalViewModel.MilestoneToggleSpec | app/src/main/java/com/lssgoo/goal2026/ui/viewmodel/Goal2026ViewModel.kt:218-250 | only the first goal with the id changes; matching milestones flip, completedAt is set on completion and cleared on reopening; progress is recomputed; unknown goal changes nothing |
| GoalViewModel.ToggleMilestoneTwice | app/src/main/java/com/lssgoo/goal2026/ui/viewmodel/Goal2026ViewModel.kt:218-250 | toggling a milestone twice restores every completion flag and the progress they give |
| GoalViewModel.PinToggleSpec | app/src/main/java/com/lssgoo/goal2026/ui/viewmodel/Goal2026ViewModel.kt:282-292 | only the first note with the id flips its pin; an unknown id changes nothing |
| GoalViewModel.PinToggleTwice | app/src/main/java/com/lssgoo/goal2026/ui/viewmodel/Goal2026ViewModel.kt:282-292 | pinning twice restores the stored notes |
| GoalViewModel.PinnedFirstSpec | app/src/main/java/com/lssgoo/goal2026/ui/viewmodel/Goal2026ViewModel.kt:289 | the published notes are the pinned ones in stored order followed by the unpinned ones in stored order |
| GoalViewModel.Goal2026ViewModel.ToggleMilestone | app/src/main/java/com/lssgoo/goal2026/ui/viewmodel/Goal2026ViewModel.kt:218-250 | the goals become the toggled goals and nothing else changes |
| GoalViewModel.Goal2026ViewModel.ToggleNotePin | app/src/main/java/com/lssgoo/goal2026/ui/viewmodel/Goal2026ViewModel.kt:282-292 | the stored notes become the toggled notes and the published notes their pinned-first sort; unknown id changes nothing |
| GoalViewModel.Goal2026ViewModel.BeginSync | app/src/main/java/com/lssgoo/goal2026/ui/viewmodel/Goal2026ViewModel.kt:452-455 | the guard: goes on exactly when no sync runs, raising the flag |
| GoalViewModel.Goal2026ViewModel.SyncToCloud | app/src/main/java/com/lssgoo/goal2026/ui/viewmodel/Goal2026ViewModel.kt:450-471 | only the sync flags change, as a whole syncToCloud |
| GoalViewModel.Goal2026ViewModel.SyncFromCloud | app/src/main/java/com/lssgoo/goal2026/ui/viewmodel/Goal2026ViewModel.kt:476-504 | only the sync flags change, as a whole syncFromCloud |
| GoalViewModel.Goal2026ViewModel.AutoSync | app/src/main/java/com/lssgoo/goal2026/ui/viewmodel/Goal2026ViewModel.kt:523-527 | offline nothing changes; online it is syncToCloud |
| GoalViewModel.Goal2026ViewModel.GetAllItemsForDate | app/src/main/java/com/lssgoo/goal2026/ui/viewmodel/Goal2026ViewModel.kt:637-718 | the appending loops and the sort give the specified calendar day |
| GoalViewModel.Goal2026ViewModel.GetHabitStats | app/src/main/java/com/lssgoo/goal2026/ui/viewmodel/Goal2026ViewModel.kt:779-822 | the streak loops give the specified habit statistics (corrected longest streak) |
| GoalViewModel.Goal2026ViewModel.GetJournalStats | app/src/main/java/com/lssgoo/goal2026/ui/viewmodel/Goal2026ViewModel.kt:873-928 | the streak loops give the specified journal statistics (corrected longest streak) |

## Left out

- Compose rendering, navigation, coroutines and dispatchers are not modelled. Each
  operation is one atomic step.
- A sync is split only where it suspends: Begin/Finish around the network call. Races
  with other coroutines are not modelled.
- Local time zones and daylight saving are not modelled. `Calendar`-based day starts are
  fixed 24-hour buckets from the epoch.
- Month starts, weekday of the 1st and month length come from the platform calendar and
  are inputs.
- Float and Double values (progress, completion rate, average mood) are exact reals, not
  IEEE floats.
- Transaction amounts are `Double` in the app and integers here: the rounding of `sumOf`
  and of the balance, and the `${t.amount}` rendering in the settlement log and the CSV,
  are not captured.
- Lower-casing for the search covers ASCII letters only. There is no Unicode case folding.
- Date and amount formatting (`SimpleDateFormat`, `toString` of Double) are function
  parameters.
- `LocalStorageManager`, JSON export/import and `S3Manager` are not part of this model.
  Storage is the in-memory lists.
- `getHabitEntriesForGoal` is taken to be the filter on goalId of the stored entries.
- Upload success, the download result and import success are inputs.
- The data reload after a successful import (`loadAllData`) is not modelled.
- `checkCloudBackup` is not modelled: it only forwards the S3 answer to a callback.
- GoalQueries.ToggleHabitEntry: models the decision of what is saved, not the effect of
  `addHabitEntry`, which is not part of this model.
- Add, update and delete pass-throughs of the view model are not modelled: they call
  storage and republish.
- Dashboard statistics, budgets, analytics, search, prompts and `getHabitCalendar` are
  not modelled.
- The 11-level item priority of tasks and calendar items is not modelled. The Note,
  Reminder, Goal, Milestone, Habit and JournalEntry records carry only the fields the
  rules read.
- The declarations of Goal, Milestone, Reminder, Habit, JournalEntry, HabitStats,
  JournalStats and CalendarItem are not part of this model. Their fields follow their
  use in the view model. HabitStats defaults to zeros and CalendarItem.isCompleted
  defaults to false.
- The goal2026 Note record has no `hasReminder`/`reminderTime` fields, but the calendar
  day reads them. The model gives Note those two fields.
- GoalStats.TotalDays: `toInt()` is modelled as 32-bit wrap-around of the whole-day count.
  The contract gives the value only inside the 32-bit range.
- GoalViewModel.Goal2026ViewModel.GetHabitStats: longestStreak is the corrected
  Streaks.LongestRun; the app as written reports Streaks.LongestStreakAsWritten, which is
  always 1 (see Findings).
- GoalViewModel.Goal2026ViewModel.GetJournalStats: longestStreak is the corrected
  Streaks.LongestRun; the app as written reports Streaks.LongestStreakAsWritten, which is
  always 1 (see Findings).
- Other integer overflow (`Long` sums, `Int` counters) is not modelled. Integers are
  unbounded.
- A keypad press and the LaunchedEffect it triggers are one step of the lock screen.
- TaskEditor.TaskEditor.ToggleTag: the selected tags are a LinkedHashSet. Toggling twice
  restores the set, but a removed and re-added tag moves to the end.

## Findings

| source | as written | input that shows it | evidently intended | confidence | as-written member | corrected member |
|---|---|---|---|---|---|---|
| app/src/main/java/com/lssgoo/goal2026/ui/viewmodel/Goal2026ViewModel.kt:798-808 (and 904-914) | the longest-streak loop walks the newest-first day list and extends a run only when `sortedDates[i] - sortedDates[i-1]` is +1 day, which never happens; the result is always 1 | completions 4, 5, 8, 9 and 10 days ago: 1 instead of 3; no completions: 1 instead of 0 | the longest run of consecutive days (difference of -1 day on this order), 0 with no days | not executed | Streaks.LongestStreakAsWritten, Streaks.LongestStreakDiscrepancy | Streaks.LongestStreak, Streaks.LongestRunIsMaximum |
