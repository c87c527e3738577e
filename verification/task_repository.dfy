/** The task store: the task list kept in local storage, with upsert, delete, completion
    toggle, first-use seeding and the per-day query. */
module TaskRepository {
  import opened Wrappers
  import opened Seqs
  import opened TimeUtil
  import opened TaskModel

  /** `indexOfFirst { it.id == id }`, with None for -1. */
  function IndexOfId(ts: seq<Task>, id: string): Option<nat> {
    IndexOfFirst(ts, (t: Task) => t.id == id)
  }

  /** The list saveTask writes back: an existing id is replaced in place with updatedAt
      refreshed; a new id is inserted at the front. */
  function Upserted(ts: seq<Task>, task: Task, now: int): seq<Task> {
    match IndexOfId(ts, task.id)
    case Some(i) => ts[i := task.(updatedAt := now)]
    case None => [task] + ts
  }

  /** deleteTask's filter predicate: the tasks with another id. */
  function OtherId(id: string): Task -> bool {
    (t: Task) => t.id != id
  }

  /** The list deleteTask writes back: every task with that id filtered out. */
  function Without(ts: seq<Task>, id: string): seq<Task> {
    Filter(ts, OtherId(id))
  }

  /** One task after toggleTaskCompletion. */
  function Flipped(t: Task, now: int): Task {
    t.(isCompleted := !t.isCompleted,
       completedAt := if !t.isCompleted then Some(now) else None,
       updatedAt := now)
  }

  /** The list toggleTaskCompletion writes back (only when the id is known). */
  function Toggled(ts: seq<Task>, id: string, now: int): seq<Task> {
    match IndexOfId(ts, id)
    case Some(i) => ts[i := Flipped(ts[i], now)]
    case None => ts
  }

  /** The four tasks seeded into an empty store. `ids` stands for four freshly generated
      UUIDs and `now` for the clock read by the record defaults. */
  function DefaultTasks(now: int, ids: seq<string>): seq<Task>
    requires |ids| == 4
  {
    var today := StartOfDay(now);
    [ NewTask(ids[0], "Plan my 2026 goals", now).(
        description := "Outline the key achievements for this year", priority := HIGH,
        dueDate := Some(today + 9 * HourMs), tags := [PERSONAL]),
      NewTask(ids[1], "Check weekly grocery", now).(
        description := "Milk, Fruits, and Vegetables", priority := MEDIUM,
        dueDate := Some(today + 18 * HourMs), tags := [SHOPPING]),
      NewTask(ids[2], "Morning focused work block", now).(
        description := "Complete the most important task of the day", priority := URGENT,
        dueDate := Some(today + 10 * HourMs), tags := [OFFICE]),
      NewTask(ids[3], "Evening walk or exercise", now).(
        description := "Stay healthy and active", priority := LOW,
        dueDate := Some(today + 19 * HourMs), tags := [HEALTH]) ]
  }

  /** A task is due on the day of `date` when it has a due date inside that day's bucket. */
  predicate DueOn(t: Task, date: int) {
    t.dueDate.Some? && InDay(t.dueDate.value, date)
  }

  /** getTasksForDate's filter predicate. */
  function DueOnDay(date: int): Task -> bool {
    (t: Task) => DueOn(t, date)
  }

  /** getTasksForDate: the dated tasks whose due date lies in the day of `date`, in stored order. */
  function TasksForDate(ts: seq<Task>, date: int): seq<Task> {
    Filter(ts, DueOnDay(date))
  }

  /** The repository over the "tasks" collection of local storage; `stored` is that collection. */
  class TaskRepository {
    var stored: seq<Task>

    constructor(initial: seq<Task>)
      ensures stored == initial
    {
      stored := initial;
    }

    /** getTasks: an empty store is seeded with the defaults, which are saved and returned. */
    method GetTasks(now: int, ids: seq<string>) returns (r: seq<Task>)
      requires |ids| == 4
      modifies this
      ensures old(stored) == [] ==> r == DefaultTasks(now, ids) && stored == r
      ensures old(stored) != [] ==> r == old(stored) && stored == old(stored)
    {
      if stored == [] {
        r := DefaultTasks(now, ids);
        stored := r;
      } else {
        r := stored;
      }
    }

    method SaveTask(task: Task, now: int)
      modifies this
      ensures stored == Upserted(old(stored), task, now)
    {
      var tasks := stored;
      var index := IndexOfId(tasks, task.id);
      if index.Some? {
        tasks := tasks[index.value := task.(updatedAt := now)];
      } else {
        tasks := [task] + tasks;
      }
      stored := tasks;
    }

    method DeleteTask(id: string)
      modifies this
      ensures stored == Without(old(stored), id)
    {
      stored := Without(stored, id);
    }

    /** An unknown id saves nothing. */
    method ToggleTaskCompletion(id: string, now: int)
      modifies this
      ensures stored == Toggled(old(stored), id, now)
      ensures IndexOfId(old(stored), id).None? ==> stored == old(stored)
    {
      var tasks := stored;
      var index := IndexOfId(tasks, id);
      if index.Some? {
        var task := tasks[index.value];
        tasks := tasks[index.value := task.(
          isCompleted := !task.isCompleted,
          completedAt := if !task.isCompleted then Some(now) else None,
          updatedAt := now)];
        stored := tasks;
      }
    }

    function GetTasksForDate(date: int): seq<Task>
      reads this
    {
      TasksForDate(stored, date)
    }
  }

  // ---------------------------------------------------------------- properties

  /** Saving a task whose id is stored replaces the first entry with that id in place, with
      updatedAt refreshed, and leaves the length and every other entry alone. */
  lemma UpsertExisting(ts: seq<Task>, task: Task, now: int, k: nat)
    requires k < |ts| && ts[k].id == task.id
    ensures var r := Upserted(ts, task, now);
      |r| == |ts|
      && exists i :: 0 <= i <= k && ts[i].id == task.id
                     && (forall j :: 0 <= j < i ==> ts[j].id != task.id)
                     && r[i] == task.(updatedAt := now)
                     && forall j :: 0 <= j < |ts| && j != i ==> r[j] == ts[j]
  {
    var i := IndexOfId(ts, task.id).value;
    assert i <= k;
    var r := Upserted(ts, task, now);
    assert r[i] == task.(updatedAt := now);
  }

  /** Saving a task with a new id puts it at index 0 and shifts the rest unchanged. */
  lemma UpsertNew(ts: seq<Task>, task: Task, now: int)
    requires forall j :: 0 <= j < |ts| ==> ts[j].id != task.id
    ensures var r := Upserted(ts, task, now);
      |r| == |ts| + 1 && r[0] == task && r[1..] == ts
  {
  }

  /** After a save, looking the id up finds what was saved (with the refreshed timestamp
      when it replaced an existing entry). */
  lemma UpsertThenFind(ts: seq<Task>, task: Task, now: int)
    ensures var r := Upserted(ts, task, now);
      IndexOfId(r, task.id).Some?
      && r[IndexOfId(r, task.id).value] in {task, task.(updatedAt := now)}
  {
    var r := Upserted(ts, task, now);
    match IndexOfId(ts, task.id)
    case Some(i) =>
      assert r[i].id == task.id;
      var j := IndexOfId(r, task.id).value;
      assert j <= i;
    case None =>
      assert r[0].id == task.id;
  }

  /** Delete keeps exactly the tasks with another id. */
  lemma {:induction false} WithoutMembers(ts: seq<Task>, id: string)
    ensures forall t :: t in Without(ts, id) <==> t in ts && t.id != id
  {
    if ts != [] {
      WithoutMembers(ts[1..], id);
      assert ts == [ts[0]] + ts[1..];
    }
  }

  /** Delete keeps the surviving tasks in their stored order: deleting from a concatenation
      deletes from each part, and a stretch without that id is kept whole. */
  lemma DeleteKeepsOrder(a: seq<Task>, b: seq<Task>, id: string)
    ensures Without(a + b, id) == Without(a, id) + Without(b, id)
    ensures (forall j :: 0 <= j < |a| ==> a[j].id != id) ==> Without(a, id) == a
  {
    FilterAppend(a, b, OtherId(id));
    FilterAllOrNone(a, OtherId(id));
  }

  /** Deleting twice is deleting once. */
  lemma {:induction false} DeleteIdempotent(ts: seq<Task>, id: string)
    ensures Without(Without(ts, id), id) == Without(ts, id)
  {
    WithoutMembers(ts, id);
    var r := Without(ts, id);
    forall j | 0 <= j < |r| ensures r[j].id != id {
      assert r[j] in r;
    }
    DeleteKeepsOrder(r, [], id);
    assert r + [] == r;
  }

  /** Deleting removes exactly the entries with that id: the length drops by their number. */
  lemma {:induction false} DeleteCount(ts: seq<Task>, id: string)
    ensures |Without(ts, id)| == |ts| - CountId(ts, id)
  {
    if ts != [] {
      DeleteCount(ts[1..], id);
    }
  }

  function CountId(ts: seq<Task>, id: string): (n: nat)
    ensures n <= |ts|
  {
    if ts == [] then 0 else (if ts[0].id == id then 1 else 0) + CountId(ts[1..], id)
  }

  /** Toggling flips the first task with the id: completedAt is set exactly when it
      becomes complete, updatedAt becomes the toggle time, and its other fields stay. */
  lemma ToggleFlipsFirst(ts: seq<Task>, id: string, now: int, k: nat)
    requires k < |ts| && ts[k].id == id
    ensures var r := Toggled(ts, id, now);
      |r| == |ts|
      && exists i :: (0 <= i <= k && ts[i].id == id
         && (forall j :: 0 <= j < i ==> ts[j].id != id)
         && r[i].isCompleted == !ts[i].isCompleted
         && (r[i].isCompleted ==> r[i].completedAt == Some(now))
         && (!r[i].isCompleted ==> r[i].completedAt == None)
         && r[i].updatedAt == now
         && r[i].(isCompleted := ts[i].isCompleted, completedAt := ts[i].completedAt,
                  updatedAt := ts[i].updatedAt) == ts[i]
         && forall j :: 0 <= j < |ts| && j != i ==> r[j] == ts[j])
  {
    var i := IndexOfId(ts, id).value;
    assert i <= k;
  }

  /** Two tasks equal up to their completion and update timestamps. */
  predicate SameButTimestamps(a: Task, b: Task) {
    a.(completedAt := None, updatedAt := 0) == b.(completedAt := None, updatedAt := 0)
  }

  /** Toggling the same id twice restores every completion flag; only timestamps differ. */
  lemma ToggleTwice(ts: seq<Task>, id: string, now1: int, now2: int)
    ensures var r := Toggled(Toggled(ts, id, now1), id, now2);
      |r| == |ts| && forall j :: 0 <= j < |ts| ==> SameButTimestamps(r[j], ts[j])
  {
    match IndexOfId(ts, id)
    case None =>
    case Some(i) =>
      var once := Toggled(ts, id, now1);
      assert once[i].id == id;
      assert forall j :: 0 <= j < i ==> once[j] == ts[j];
      assert IndexOfId(once, id) == Some(i) by {
        var m := IndexOfId(once, id);
        assert m.Some?;
        assert m.value <= i;
      }
  }

  /** The seed: four incomplete tasks, all due inside today's bucket, so the day query
      returns all of them. */
  lemma DefaultsDueToday(now: int, ids: seq<string>)
    requires |ids| == 4
    ensures var d := DefaultTasks(now, ids);
      |d| == 4
      && (forall j :: 0 <= j < 4 ==> !d[j].isCompleted && d[j].completedAt == None && DueOn(d[j], now))
      && TasksForDate(d, now) == d
  {
    var d := DefaultTasks(now, ids);
    var today := StartOfDay(now);
    assert 19 * HourMs < DayMs;
    assert 19 * HourMs < DayMs;
    forall j | 0 <= j < 4 ensures DueOnDay(now)(d[j]) { }
    FilterAllOrNone(d, DueOnDay(now));
  }

  /** The day query is exactly the inclusive-bucket filter, and the bucket is the set of
      timestamps sharing the day start. */
  lemma TasksForDateMembers(ts: seq<Task>, date: int)
    ensures forall t :: t in TasksForDate(ts, date) <==>
      t in ts && t.dueDate.Some? && StartOfDay(date) <= t.dueDate.value <= StartOfDay(date) + DayMs - 1
    ensures forall t :: t in TasksForDate(ts, date) ==> StartOfDay(t.dueDate.value) == StartOfDay(date)
  {
    forall t | t in TasksForDate(ts, date) ensures StartOfDay(t.dueDate.value) == StartOfDay(date) {
      InDayIffSameDay(t.dueDate.value, date);
    }
  }

  /** The day query keeps the stored order: the query over a concatenation is the query over
      each part, and one task is returned exactly when it is due that day. */
  lemma TasksForDateKeepsOrder(a: seq<Task>, b: seq<Task>, t: Task, date: int)
    ensures TasksForDate(a + b, date) == TasksForDate(a, date) + TasksForDate(b, date)
    ensures TasksForDate([t], date) == if DueOn(t, date) then [t] else []
  {
    FilterAppend(a, b, DueOnDay(date));
    FilterOne(t, DueOnDay(date));
  }
}
