/** The Goal 2026 view model's read-only queries over its published lists: the day
    buckets, the next five tasks and reminders, the unified calendar day, and the decision
    behind a habit check-off. */
module GoalQueries {
  import opened Wrappers
  import opened TimeUtil
  import opened Text
  import opened Sorting
  import opened Seqs
  import opened GoalModel
  import TaskModel

  /** `take(n)` of a stable sort keeps the n smallest: nothing is kept more often than it
      occurs, anything left out has a key no smaller than the last one kept (and then
      exactly n were kept), and among equal keys the kept ones are the first in input order. */
  lemma SmallestFirst<T>(s: seq<T>, key: T -> Key, n: nat)
    ensures var r := Take(SortBy(s, key), n);
      |r| <= n && (forall x :: x in r ==> x in s) && SortedBy(r, key)
      && multiset(r) <= multiset(s)
      && (forall k :: WithKey(r, key, k) <= WithKey(s, key, k))
      && forall x :: x in s && x !in r ==> |r| == n && (n > 0 ==> KeyLe(key(r[n - 1]), key(x)))
  {
    var sorted := SortBy(s, key);
    var r := Take(sorted, n);
    TakeSubMultiset(sorted, n);
    forall k ensures WithKey(r, key, k) <= WithKey(s, key, k) {
      TakeSortedWithKey(s, key, n, k);
    }
    forall x | x in r ensures x in s {
      assert x in multiset(sorted);
    }
    forall x | x in s && x !in r ensures |r| == n && (n > 0 ==> KeyLe(key(r[n - 1]), key(x))) {
      assert x in multiset(sorted);
      var k :| 0 <= k < |sorted| && sorted[k] == x;
      LeftOutOfPrefix(sorted, key, n, k);
    }
  }

  lemma TakeSubMultiset<T>(s: seq<T>, n: nat)
    ensures multiset(Take(s, n)) <= multiset(s)
  {
    var r := Take(s, n);
    assert s == r + s[|r|..];
  }

  lemma TakeSortedWithKey<T>(s: seq<T>, key: T -> Key, n: nat, k: Key)
    ensures WithKey(Take(SortBy(s, key), n), key, k) <= WithKey(s, key, k)
  {
    var sorted := SortBy(s, key);
    assert Take(sorted, n) == sorted[..|Take(sorted, n)|];
    WithKeyPrefix(sorted, key, k, |Take(sorted, n)|);
    SortStable(s, key, k);
  }

  lemma LeftOutOfPrefix<T>(sorted: seq<T>, key: T -> Key, n: nat, k: nat)
    requires SortedBy(sorted, key) && k < |sorted| && sorted[k] !in Take(sorted, n)
    ensures |Take(sorted, n)| == n && (n > 0 ==> KeyLe(key(Take(sorted, n)[n - 1]), key(sorted[k])))
  {
    var r := Take(sorted, n);
    assert forall i :: 0 <= i < |r| ==> r[i] == sorted[i] && r[i] in r;
    assert k >= |r|;
    if n > 0 {
      assert r[n - 1] == sorted[n - 1];
    }
  }

  // ---------------------------------------------------------------- day buckets

  predicate DueOn(t: Task, date: int) {
    t.dueDate.Some? && InDay(t.dueDate.value, date)
  }

  function TasksForDate(ts: seq<Task>, date: int): seq<Task> {
    Filter(ts, (t: Task) => DueOn(t, date))
  }

  function EventsForDate(es: seq<CalendarEvent>, date: int): seq<CalendarEvent> {
    Filter(es, (e: CalendarEvent) => InDay(e.date, date))
  }

  function RemindersForDate(rs: seq<Reminder>, date: int): seq<Reminder> {
    Filter(rs, (r: Reminder) => InDay(r.reminderTime, date))
  }

  predicate NoteDueOn(n: Note, date: int) {
    n.hasReminder && n.reminderTime.Some? && InDay(n.reminderTime.value, date)
  }

  function NotesForDate(ns: seq<Note>, date: int): seq<Note> {
    Filter(ns, (n: Note) => NoteDueOn(n, date))
  }

  function HabitEntriesForDate(es: seq<TaskModel.HabitEntry>, date: int): seq<TaskModel.HabitEntry> {
    Filter(es, (e: TaskModel.HabitEntry) => InDay(e.date, date))
  }

  /** Each bucket holds exactly the stored items timed within `[dayStart, dayStart + DayMs - 1]`;
      undated tasks and notes without a reminder are never in one. */
  lemma DayBuckets(ts: seq<Task>, es: seq<CalendarEvent>, rs: seq<Reminder>,
                   hs: seq<TaskModel.HabitEntry>, date: int)
    ensures var dayStart := StartOfDay(date);
      (forall t :: t in TasksForDate(ts, date) <==>
         t in ts && t.dueDate.Some? && dayStart <= t.dueDate.value <= dayStart + DayMs - 1)
      && (forall e :: e in EventsForDate(es, date) <==> e in es && dayStart <= e.date <= dayStart + DayMs - 1)
      && (forall r :: r in RemindersForDate(rs, date) <==>
            r in rs && dayStart <= r.reminderTime <= dayStart + DayMs - 1)
      && (forall h :: h in HabitEntriesForDate(hs, date) <==> h in hs && dayStart <= h.date <= dayStart + DayMs - 1)
  {
  }

  /** Two instants have the same buckets exactly when they fall on the same day. */
  lemma SameDaySameBucket(ts: seq<Task>, date1: int, date2: int)
    requires StartOfDay(date1) == StartOfDay(date2)
    ensures TasksForDate(ts, date1) == TasksForDate(ts, date2)
  {
    assert forall t :: DueOn(t, date1) == DueOn(t, date2);
    FilterSame(ts, (t: Task) => DueOn(t, date1), (t: Task) => DueOn(t, date2));
  }

  // ---------------------------------------------------------------- next five

  predicate IsUpcomingTask(t: Task, now: int) {
    !t.isCompleted && (t.dueDate.None? || t.dueDate.value >= now)
  }

  /** `sortedBy { it.dueDate ?: Long.MAX_VALUE }`. */
  function DueKey(t: Task): Key {
    Key(t.dueDate.GetOr(LongMax), 0)
  }

  /** The open tasks that are undated or not yet due, in stored order. */
  function OpenUpcomingTasks(ts: seq<Task>, now: int): seq<Task> {
    Filter(ts, (t: Task) => IsUpcomingTask(t, now))
  }

  function UpcomingTasks(ts: seq<Task>, now: int): seq<Task> {
    Take(SortBy(OpenUpcomingTasks(ts, now), DueKey), 5)
  }

  /** At most five open tasks that are undated or not yet due, soonest first with undated
      ones last, none shown more often than stored, no left-out open task due sooner than
      the last one shown, and tasks with equal due dates (the undated ones among them) shown
      in stored order, the earliest stored first. */
  lemma UpcomingTasksSpec(ts: seq<Task>, now: int)
    ensures var r := UpcomingTasks(ts, now);
      var open := OpenUpcomingTasks(ts, now);
      |r| <= 5
      && (forall t :: t in r ==> t in ts && IsUpcomingTask(t, now))
      && SortedBy(r, DueKey)
      && multiset(r) <= multiset(open)
      && (forall k :: WithKey(r, DueKey, k) <= WithKey(open, DueKey, k))
      && (forall t :: t in ts && IsUpcomingTask(t, now) && t !in r ==> |r| == 5 && KeyLe(DueKey(r[4]), DueKey(t)))
  {
    SmallestFirst(OpenUpcomingTasks(ts, now), DueKey, 5);
  }

  predicate IsUpcomingReminder(r: Reminder, now: int) {
    r.isEnabled && !r.isCompleted && r.reminderTime >= now
  }

  function TimeKey(r: Reminder): Key {
    Key(r.reminderTime, 0)
  }

  /** The enabled, open reminders at or after now, in stored order. */
  function PendingReminders(rs: seq<Reminder>, now: int): seq<Reminder> {
    Filter(rs, (r: Reminder) => IsUpcomingReminder(r, now))
  }

  function UpcomingReminders(rs: seq<Reminder>, now: int): seq<Reminder> {
    Take(SortBy(PendingReminders(rs, now), TimeKey), 5)
  }

  /** At most five enabled, open reminders at or after now, soonest first, none shown more
      often than stored, none left out that fires sooner than the last one shown, and
      reminders at the same time shown in stored order, the earliest stored first. */
  lemma UpcomingRemindersSpec(rs: seq<Reminder>, now: int)
    ensures var r := UpcomingReminders(rs, now);
      var pending := PendingReminders(rs, now);
      |r| <= 5
      && (forall x :: x in r ==> x in rs && x.isEnabled && !x.isCompleted && x.reminderTime >= now)
      && (forall i, j :: 0 <= i < j < |r| ==> r[i].reminderTime <= r[j].reminderTime)
      && multiset(r) <= multiset(pending)
      && (forall k :: WithKey(r, TimeKey, k) <= WithKey(pending, TimeKey, k))
      && (forall x :: x in rs && IsUpcomingReminder(x, now) && x !in r ==> |r| == 5 && r[4].reminderTime <= x.reminderTime)
  {
    SmallestFirst(PendingReminders(rs, now), TimeKey, 5);
    TimesAscending(UpcomingReminders(rs, now));
  }

  lemma TimesAscending(r: seq<Reminder>)
    requires SortedBy(r, TimeKey)
    ensures forall i, j :: 0 <= i < j < |r| ==> r[i].reminderTime <= r[j].reminderTime
  {
    forall i, j | 0 <= i < j < |r| ensures r[i].reminderTime <= r[j].reminderTime {
      assert KeyLe(TimeKey(r[i]), TimeKey(r[j]));
    }
  }

  // ---------------------------------------------------------------- the calendar day

  /** A task due in the day; its date is the due date (the fallback never applies). */
  function TaskItem(t: Task, date: int): CalendarItem {
    CalendarItem(t.id, t.title, t.description, t.dueDate.GetOr(date), TASK, t.priority.Color(),
                 t.isCompleted, t.linkedGoalId)
  }

  function EventItem(e: CalendarEvent): CalendarItem {
    CalendarItem(e.id, e.title, e.description, e.date, EVENT, e.color, false, e.linkedGoalId)
  }

  function ReminderItem(r: Reminder): CalendarItem {
    CalendarItem(r.id, r.title, r.description, r.reminderTime, REMINDER, r.color, r.isCompleted, r.linkedGoalId)
  }

  /** A note with a reminder in the day; its text is cut to the first 100 characters. */
  function NoteItem(n: Note, date: int): CalendarItem {
    CalendarItem(n.id, n.title, Take(n.content, 100), n.reminderTime.GetOr(date), NOTE, n.color,
                 false, n.linkedGoalId)
  }

  /** The conversions of the calendar day for tasks and notes, which fall back on the day. */
  function TaskItemOn(date: int): Task -> CalendarItem {
    (t: Task) => TaskItem(t, date)
  }

  function NoteItemOn(date: int): Note -> CalendarItem {
    (n: Note) => NoteItem(n, date)
  }

  /** The items appended, in order, for a list of records. */
  function Items<T>(s: seq<T>, f: T -> CalendarItem): (r: seq<CalendarItem>)
    ensures |r| == |s|
    ensures forall i :: 0 <= i < |s| ==> r[i] == f(s[i])
  {
    if s == [] then [] else Items(s[..|s| - 1], f) + [f(s[|s| - 1])]
  }

  /** Before sorting: the day's tasks, then events, then reminders, then notes. */
  function DayItems(ts: seq<Task>, es: seq<CalendarEvent>, rs: seq<Reminder>, ns: seq<Note>, date: int): seq<CalendarItem> {
    Items(TasksForDate(ts, date), TaskItemOn(date))
    + Items(EventsForDate(es, date), EventItem)
    + Items(RemindersForDate(rs, date), ReminderItem)
    + Items(NotesForDate(ns, date), NoteItemOn(date))
  }

  function DateKey(it: CalendarItem): Key {
    Key(it.date, 0)
  }

  /** `items.sortedBy { it.date }`. */
  function ItemsForDate(ts: seq<Task>, es: seq<CalendarEvent>, rs: seq<Reminder>, ns: seq<Note>, date: int): seq<CalendarItem> {
    SortBy(DayItems(ts, es, rs, ns, date), DateKey)
  }

  lemma InItems<T>(s: seq<T>, f: T -> CalendarItem, x: T)
    requires x in s
    ensures f(x) in Items(s, f)
  {
    var k :| 0 <= k < |s| && s[k] == x;
    assert Items(s, f)[k] == f(x);
  }

  lemma FromItems<T>(s: seq<T>, f: T -> CalendarItem, it: CalendarItem)
    requires it in Items(s, f)
    ensures exists x :: x in s && it == f(x)
  {
    var k :| 0 <= k < |Items(s, f)| && Items(s, f)[k] == it;
    assert s[k] in s;
  }

  /** The calendar day is ordered by time and has one item per task, event and reminder of
      the day and per note with a reminder that day. */
  lemma ItemsForDateOrdered(ts: seq<Task>, es: seq<CalendarEvent>, rs: seq<Reminder>, ns: seq<Note>, date: int)
    ensures var r := ItemsForDate(ts, es, rs, ns, date);
      (forall i, j :: 0 <= i < j < |r| ==> r[i].date <= r[j].date)
      && |r| == |TasksForDate(ts, date)| + |EventsForDate(es, date)| + |RemindersForDate(rs, date)| + |NotesForDate(ns, date)|
  {
    var r := ItemsForDate(ts, es, rs, ns, date);
    forall i, j | 0 <= i < j < |r| ensures r[i].date <= r[j].date {
      assert KeyLe(DateKey(r[i]), DateKey(r[j]));
    }
  }

  /** Every task, event and reminder of the day, and every note with a reminder that day,
      is on the calendar day. */
  lemma ItemsForDateComplete(ts: seq<Task>, es: seq<CalendarEvent>, rs: seq<Reminder>, ns: seq<Note>, date: int)
    ensures var r := ItemsForDate(ts, es, rs, ns, date);
      (forall t :: t in ts && DueOn(t, date) ==> TaskItem(t, date) in r)
      && (forall e :: e in es && InDay(e.date, date) ==> EventItem(e) in r)
      && (forall x :: x in rs && InDay(x.reminderTime, date) ==> ReminderItem(x) in r)
      && (forall n :: n in ns && NoteDueOn(n, date) ==> NoteItem(n, date) in r)
  {
    var r := ItemsForDate(ts, es, rs, ns, date);
    var d := DayItems(ts, es, rs, ns, date);
    forall it | it in d ensures it in r {
      assert it in multiset(r);
    }
    forall t | t in ts && DueOn(t, date) ensures TaskItem(t, date) in r {
      InItems(TasksForDate(ts, date), TaskItemOn(date), t);
    }
    forall e | e in es && InDay(e.date, date) ensures EventItem(e) in r {
      InItems(EventsForDate(es, date), EventItem, e);
    }
    forall x | x in rs && InDay(x.reminderTime, date) ensures ReminderItem(x) in r {
      InItems(RemindersForDate(rs, date), ReminderItem, x);
    }
    forall n | n in ns && NoteDueOn(n, date) ensures NoteItem(n, date) in r {
      InItems(NotesForDate(ns, date), NoteItemOn(date), n);
    }
  }

  /** The item comes from a task, event or reminder of the day or a note with a reminder
      that day. */
  ghost predicate FromDay(it: CalendarItem, ts: seq<Task>, es: seq<CalendarEvent>, rs: seq<Reminder>,
                          ns: seq<Note>, date: int) {
    (exists t :: t in ts && DueOn(t, date) && it == TaskItem(t, date))
    || (exists e :: e in es && InDay(e.date, date) && it == EventItem(e))
    || (exists x :: x in rs && InDay(x.reminderTime, date) && it == ReminderItem(x))
    || (exists n :: n in ns && NoteDueOn(n, date) && it == NoteItem(n, date))
  }

  lemma ItemOrigin(ts: seq<Task>, es: seq<CalendarEvent>, rs: seq<Reminder>, ns: seq<Note>, date: int,
                   it: CalendarItem)
    requires it in DayItems(ts, es, rs, ns, date)
    ensures FromDay(it, ts, es, rs, ns, date)
    ensures InDay(it.date, date) && (it.kind == NOTE ==> |it.description| <= 100)
  {
    var ti := Items(TasksForDate(ts, date), TaskItemOn(date));
    var ei := Items(EventsForDate(es, date), EventItem);
    var ri := Items(RemindersForDate(rs, date), ReminderItem);
    var ni := Items(NotesForDate(ns, date), NoteItemOn(date));
    assert it in ti + ei + ri + ni;
    if it in ti {
      FromItems(TasksForDate(ts, date), TaskItemOn(date), it);
    } else if it in ei {
      FromItems(EventsForDate(es, date), EventItem, it);
    } else if it in ri {
      FromItems(RemindersForDate(rs, date), ReminderItem, it);
    } else {
      assert it in ni;
      FromItems(NotesForDate(ns, date), NoteItemOn(date), it);
    }
  }

  /** Nothing else is on the calendar day: each item comes from a task, event or reminder of
      the day or a note with a reminder that day, lies in the day, and a note's text is at
      most 100 characters. */
  lemma ItemsForDateSound(ts: seq<Task>, es: seq<CalendarEvent>, rs: seq<Reminder>, ns: seq<Note>, date: int)
    ensures var r := ItemsForDate(ts, es, rs, ns, date);
      forall it :: it in r ==>
        FromDay(it, ts, es, rs, ns, date) && InDay(it.date, date) && (it.kind == NOTE ==> |it.description| <= 100)
  {
    var r := ItemsForDate(ts, es, rs, ns, date);
    forall it | it in r
      ensures FromDay(it, ts, es, rs, ns, date)
      ensures InDay(it.date, date) && (it.kind == NOTE ==> |it.description| <= 100)
    {
      assert it in multiset(DayItems(ts, es, rs, ns, date));
      ItemOrigin(ts, es, rs, ns, date, it);
    }
  }

  // ---------------------------------------------------------------- habit check-off

  /** `habits.find { it.id == habitId }`. */
  function FindHabit(habits: seq<Habit>, habitId: string): (r: Option<Habit>)
    ensures r.Some? ==> r.value in habits && r.value.id == habitId
    ensures r.Some? ==> exists i :: 0 <= i < |habits| && habits[i] == r.value
                                    && forall j :: 0 <= j < i ==> habits[j].id != habitId
    ensures r.None? <==> forall h :: h in habits ==> h.id != habitId
  {
    if habits == [] then None
    else if habits[0].id == habitId then Some(habits[0])
    else
      var rest := FindHabit(habits[1..], habitId);
      if rest.Some? then
        var i :| 0 <= i < |habits[1..]| && habits[1..][i] == rest.value
                 && forall j :: 0 <= j < i ==> habits[1..][j].id != habitId;
        assert habits[i + 1] == rest.value;
        rest
      else rest
  }

  predicate EntryOnDay(e: TaskModel.HabitEntry, goalId: string, date: int) {
    e.goalId == goalId && StartOfDay(e.date) == StartOfDay(date)
  }

  /** `firstOrNull` entry of that goal on the day of `date`. */
  function FirstEntryOnDay(entries: seq<TaskModel.HabitEntry>, goalId: string, date: int): (r: Option<TaskModel.HabitEntry>)
    ensures r.Some? ==> exists i :: 0 <= i < |entries| && entries[i] == r.value && EntryOnDay(entries[i], goalId, date)
                          && forall j :: 0 <= j < i ==> !EntryOnDay(entries[j], goalId, date)
    ensures r.None? <==> forall e :: e in entries ==> !EntryOnDay(e, goalId, date)
  {
    if entries == [] then None
    else if EntryOnDay(entries[0], goalId, date) then Some(entries[0])
    else
      var r := FirstEntryOnDay(entries[1..], goalId, date);
      if r.Some? then
        var i :| 0 <= i < |entries[1..]| && entries[1..][i] == r.value && EntryOnDay(entries[1..][i], goalId, date)
                 && forall j :: 0 <= j < i ==> !EntryOnDay(entries[1..][j], goalId, date);
        assert entries[i + 1] == r.value;
        assert forall j :: 0 <= j < i + 1 ==> !EntryOnDay(entries[j], goalId, date) by {
          forall j | 0 <= j < i + 1 ensures !EntryOnDay(entries[j], goalId, date) {
            if j > 0 {
              assert entries[j] == entries[1..][j - 1];
            }
          }
        }
        r
      else r
  }

  /** What checking a habit off on a day writes to storage. */
  datatype HabitToggle =
    | NoSuchHabit
    | SaveFlipped(entry: TaskModel.HabitEntry)
    | SaveNew(entry: TaskModel.HabitEntry)

  /** toggleHabitEntry's decision: nothing for an unknown habit; otherwise the first entry
      of the habit's goal on that day with its completion flipped, or, when there is none,
      a new completed entry dated `date`. `newId` stands for the generated id. */
  function ToggleHabitEntry(habits: seq<Habit>, entries: seq<TaskModel.HabitEntry>, habitId: string,
                            date: int, newId: string): (r: HabitToggle)
    ensures r.NoSuchHabit? <==> forall h :: h in habits ==> h.id != habitId
    ensures r.SaveFlipped? ==>
      var goalId := FindHabit(habits, habitId).value.goalId;
      exists i :: 0 <= i < |entries| && EntryOnDay(entries[i], goalId, date)
                  && (forall j :: 0 <= j < i ==> !EntryOnDay(entries[j], goalId, date))
                  && r.entry == entries[i].(isCompleted := !entries[i].isCompleted)
    ensures r.SaveNew? ==> (r.entry == TaskModel.HabitEntry(newId, date, FindHabit(habits, habitId).value.goalId, true, "")
                            && forall e :: e in entries ==> !EntryOnDay(e, r.entry.goalId, date))
  {
    match FindHabit(habits, habitId)
    case None => NoSuchHabit
    case Some(habit) =>
      match FirstEntryOnDay(entries, habit.goalId, date)
      case Some(existing) => SaveFlipped(existing.(isCompleted := !existing.isCompleted))
      case None => SaveNew(TaskModel.NewHabitEntry(newId, date, habit.goalId).(isCompleted := true))
  }

  /** Whatever is saved belongs to the habit's goal and to the day that was tapped. */
  lemma ToggledEntryOnTappedDay(habits: seq<Habit>, entries: seq<TaskModel.HabitEntry>, habitId: string,
                                date: int, newId: string)
    ensures var r := ToggleHabitEntry(habits, entries, habitId, date, newId);
      !r.NoSuchHabit? ==> (exists h :: h in habits && h.id == habitId && r.entry.goalId == h.goalId)
                          && InDay(r.entry.date, date)
  {
    var r := ToggleHabitEntry(habits, entries, habitId, date, newId);
    if !r.NoSuchHabit? {
      var h := FindHabit(habits, habitId).value;
      assert h in habits && h.id == habitId && r.entry.goalId == h.goalId;
      InDayIffSameDay(r.entry.date, date);
    }
  }
}
