/** The state the goal planner's view model publishes, and the operations that update it in
    place: toggling a milestone and recomputing the goal's progress, pinning a note and
    re-sorting the list, the cloud sync flags, and the calendar-day and statistics queries
    computed with loops. Storage is the same lists: a write saves and republishes. */
module GoalViewModel {
  import opened Wrappers
  import opened Seqs
  import opened TimeUtil
  import opened Sorting
  import opened GoalModel
  import opened Streaks
  import opened GoalQueries
  import opened GoalStats
  import opened CloudSync
  import TaskModel
  import opened Ratio

  // ---------------------------------------------------------------- milestones

  /** The first goal with that id. */
  function IndexOfGoal(gs: seq<Goal>, goalId: string): Option<nat> {
    IndexOfFirst(gs, (g: Goal) => g.id == goalId)
  }

  /** One milestone tapped: completion flips, and the completion time is set when it becomes
      completed and cleared when it becomes open again. */
  function Flip(m: Milestone, now: int): Milestone {
    m.(isCompleted := !m.isCompleted, completedAt := if !m.isCompleted then Some(now) else None)
  }

  function FlipMilestones(ms: seq<Milestone>, milestoneId: string, now: int): (r: seq<Milestone>)
    ensures |r| == |ms|
    ensures forall k :: 0 <= k < |ms| ==> r[k] == if ms[k].id == milestoneId then Flip(ms[k], now) else ms[k]
  {
    seq(|ms|, (k: int) requires 0 <= k < |ms| => if ms[k].id == milestoneId then Flip(ms[k], now) else ms[k])
  }

  function CompletedCount(ms: seq<Milestone>): (c: nat)
    ensures c <= |ms|
  {
    if ms == [] then 0 else CompletedCount(ms[..|ms| - 1]) + (if ms[|ms| - 1].isCompleted then 1 else 0)
  }

  /** The share of completed milestones, 0 for a goal without milestones. */
  function Progress(ms: seq<Milestone>): real {
    if |ms| > 0 then CompletedCount(ms) as real / |ms| as real else 0.0
  }

  /** The goals after toggleMilestone: nothing changes for an unknown goal. */
  function MilestoneToggled(gs: seq<Goal>, goalId: string, milestoneId: string, now: int): seq<Goal> {
    match IndexOfGoal(gs, goalId)
    case None => gs
    case Some(i) =>
      var ms := FlipMilestones(gs[i].milestones, milestoneId, now);
      gs[i := gs[i].(milestones := ms, progress := Progress(ms), updatedAt := now)]
  }

  /** Progress lies between 0 and 1, and is 1 exactly when there are milestones and all of
      them are completed. */
  lemma ProgressBounds(ms: seq<Milestone>)
    ensures 0.0 <= Progress(ms) <= 1.0
    ensures Progress(ms) == 1.0 <==> |ms| > 0 && forall k :: 0 <= k < |ms| ==> ms[k].isCompleted
  {
    AllCompletedCount(ms);
    if |ms| > 0 {
      RatioBounds(CompletedCount(ms), |ms|);
    }
  }

  lemma {:induction false} AllCompletedCount(ms: seq<Milestone>)
    ensures CompletedCount(ms) == |ms| <==> forall k :: 0 <= k < |ms| ==> ms[k].isCompleted
  {
    if ms != [] {
      var init := ms[..|ms| - 1];
      AllCompletedCount(init);
      assert forall k :: 0 <= k < |init| ==> init[k] == ms[k];
    }
  }

  /** Milestone lists with the same completion flags have the same completed count. */
  lemma {:induction false} SameFlagsSameCount(a: seq<Milestone>, b: seq<Milestone>)
    requires |a| == |b|
    requires forall k :: 0 <= k < |a| ==> a[k].isCompleted == b[k].isCompleted
    ensures CompletedCount(a) == CompletedCount(b)
  {
    if a != [] {
      SameFlagsSameCount(a[..|a| - 1], b[..|b| - 1]);
    }
  }

  /** toggleMilestone changes only the first goal with that id: each milestone with that id
      flips, gets the time when it becomes completed and loses it when reopened, the others
      stay, and the progress is recomputed from the new flags. */
  lemma MilestoneToggleSpec(gs: seq<Goal>, goalId: string, milestoneId: string, now: int)
    ensures var r := MilestoneToggled(gs, goalId, milestoneId, now);
      |r| == |gs|
      && (IndexOfGoal(gs, goalId).None? ==> r == gs)
      && (IndexOfGoal(gs, goalId).Some? ==>
            var i := IndexOfGoal(gs, goalId).value;
            var before, after := gs[i].milestones, r[i].milestones;
            (forall j :: 0 <= j < |gs| && j != i ==> r[j] == gs[j])
            && r[i].id == gs[i].id && r[i].title == gs[i].title && r[i].updatedAt == now
            && |after| == |before|
            && (forall k :: 0 <= k < |before| ==>
                  after[k].id == before[k].id && after[k].title == before[k].title
                  && (after[k].isCompleted <==> (before[k].isCompleted != (before[k].id == milestoneId)))
                  && (before[k].id == milestoneId && after[k].isCompleted ==> after[k].completedAt == Some(now))
                  && (before[k].id == milestoneId && !after[k].isCompleted ==> after[k].completedAt == None)
                  && (before[k].id != milestoneId ==> after[k] == before[k]))
            && r[i].progress == Progress(after)
            && 0.0 <= r[i].progress <= 1.0)
  {
    var r := MilestoneToggled(gs, goalId, milestoneId, now);
    if IndexOfGoal(gs, goalId).Some? {
      ProgressBounds(r[IndexOfGoal(gs, goalId).value].milestones);
    }
  }

  /** Tapping the same milestone twice restores every completion flag and the progress the
      flags give. */
  lemma ToggleMilestoneTwice(gs: seq<Goal>, goalId: string, milestoneId: string, now1: int, now2: int)
    ensures var r := MilestoneToggled(MilestoneToggled(gs, goalId, milestoneId, now1), goalId, milestoneId, now2);
      |r| == |gs|
      && forall j :: 0 <= j < |gs| ==>
           r[j].id == gs[j].id && |r[j].milestones| == |gs[j].milestones|
           && (forall k :: 0 <= k < |gs[j].milestones| ==>
                 r[j].milestones[k].isCompleted == gs[j].milestones[k].isCompleted)
           && (r[j] != gs[j] ==> r[j].progress == Progress(gs[j].milestones))
  {
    var once := MilestoneToggled(gs, goalId, milestoneId, now1);
    var r := MilestoneToggled(once, goalId, milestoneId, now2);
    MilestoneToggleSpec(gs, goalId, milestoneId, now1);
    match IndexOfGoal(gs, goalId)
    case None =>
    case Some(i) =>
      assert IndexOfGoal(once, goalId) == Some(i) by {
        assert forall j :: 0 <= j < |once| ==> once[j].id == gs[j].id;
        var o := IndexOfGoal(once, goalId);
        assert o.Some? && o.value <= i;
        assert o.value >= i;
      }
      MilestoneToggleSpec(once, goalId, milestoneId, now2);
      SameFlagsSameCount(r[i].milestones, gs[i].milestones);
  }

  // ---------------------------------------------------------------- notes

  /** The first note with that id. */
  function IndexOfNote(ns: seq<Note>, noteId: string): Option<nat> {
    IndexOfFirst(ns, (n: Note) => n.id == noteId)
  }

  /** The stored notes after toggleNotePin. */
  function PinToggled(ns: seq<Note>, noteId: string): seq<Note> {
    match IndexOfNote(ns, noteId)
    case None => ns
    case Some(i) => ns[i := ns[i].(isPinned := !ns[i].isPinned)]
  }

  const Pinned := Key(0, 0)
  const Unpinned := Key(1, 0)

  function PinKey(n: Note): Key {
    if n.isPinned then Pinned else Unpinned
  }

  /** `sortedByDescending { it.isPinned }`: a stable sort putting pinned notes first. */
  function PinnedFirst(ns: seq<Note>): seq<Note> {
    SortBy(ns, PinKey)
  }

  /** toggleNotePin flips the pin of the first note with that id and of no other note; an
      unknown id changes nothing. */
  lemma PinToggleSpec(ns: seq<Note>, noteId: string)
    ensures var r := PinToggled(ns, noteId);
      |r| == |ns|
      && (IndexOfNote(ns, noteId).None? ==> r == ns)
      && (IndexOfNote(ns, noteId).Some? ==>
            var i := IndexOfNote(ns, noteId).value;
            r[i].isPinned == !ns[i].isPinned && r[i].(isPinned := ns[i].isPinned) == ns[i]
            && forall j :: 0 <= j < |ns| && j != i ==> r[j] == ns[j])
  {
  }

  /** Pinning the same note twice restores the stored notes. */
  lemma PinToggleTwice(ns: seq<Note>, noteId: string)
    ensures PinToggled(PinToggled(ns, noteId), noteId) == ns
  {
    match IndexOfNote(ns, noteId)
    case None =>
    case Some(i) =>
      var once := PinToggled(ns, noteId);
      assert IndexOfNote(once, noteId) == Some(i) by {
        assert forall j :: 0 <= j < |once| ==> once[j].id == ns[j].id;
        var o := IndexOfNote(once, noteId);
        assert o.Some? && o.value <= i;
        assert o.value >= i;
      }
  }

  /** The published notes are the pinned notes in stored order followed by the unpinned
      notes in stored order. */
  lemma PinnedFirstSpec(ns: seq<Note>)
    ensures PinnedFirst(ns) == WithKey(ns, PinKey, Pinned) + WithKey(ns, PinKey, Unpinned)
    ensures multiset(PinnedFirst(ns)) == multiset(ns)
    ensures forall i, j :: 0 <= i < j < |PinnedFirst(ns)| && PinnedFirst(ns)[j].isPinned ==> PinnedFirst(ns)[i].isPinned
  {
    var r := PinnedFirst(ns);
    forall i | 0 <= i < |r| ensures PinKey(r[i]) == Pinned || PinKey(r[i]) == Unpinned { }
    TwoKeySplit(r, PinKey, Pinned, Unpinned);
    SortStable(ns, PinKey, Pinned);
    SortStable(ns, PinKey, Unpinned);
    forall i, j | 0 <= i < j < |r| && r[j].isPinned ensures r[i].isPinned {
      assert KeyLe(PinKey(r[i]), PinKey(r[j]));
    }
  }

  // ---------------------------------------------------------------- the calendar day

  /** One `forEach { items.add(...) }` of getAllItemsForDate. */
  method AppendItems<T>(items: seq<CalendarItem>, records: seq<T>, f: T -> CalendarItem)
    returns (r: seq<CalendarItem>)
    ensures r == items + Items(records, f)
  {
    r := items;
    for i := 0 to |records|
      invariant r == items + Items(records[..i], f)
    {
      assert records[..i + 1][..i] == records[..i];
      r := r + [f(records[i])];
    }
    assert records[..|records|] == records;
  }

  // ---------------------------------------------------------------- the view model

  /** Everything the view model holds, for stating what an operation leaves alone. */
  datatype ViewState = ViewState(goals: seq<Goal>, storedNotes: seq<Note>, notes: seq<Note>,
                                 tasks: seq<Task>, events: seq<CalendarEvent>, reminders: seq<Reminder>,
                                 habits: seq<Habit>, habitEntries: seq<TaskModel.HabitEntry>,
                                 journalEntries: seq<JournalEntry>, sync: SyncState)

  class Goal2026ViewModel {
    var goals: seq<Goal>
    /** The notes as stored, and as published (pinned first after a pin toggle). */
    var storedNotes: seq<Note>
    var notes: seq<Note>
    var tasks: seq<Task>
    var events: seq<CalendarEvent>
    var reminders: seq<Reminder>
    var habits: seq<Habit>
    var habitEntries: seq<TaskModel.HabitEntry>
    var journalEntries: seq<JournalEntry>
    var isSyncing: bool
    var lastSyncTime: Option<int>
    var snackbarMessage: Option<string>

    function Sync(): SyncState
      reads this
    {
      SyncState(isSyncing, lastSyncTime, snackbarMessage)
    }

    function State(): ViewState
      reads this
    {
      ViewState(goals, storedNotes, notes, tasks, events, reminders, habits, habitEntries,
                journalEntries, Sync())
    }

    /** Mark the milestone done or not done and recompute the goal's progress. */
    method ToggleMilestone(goalId: string, milestoneId: string, now: int)
      modifies this
      ensures State() == old(State()).(goals := MilestoneToggled(old(goals), goalId, milestoneId, now))
    {
      var goalIndex := 0;
      while goalIndex < |goals| && goals[goalIndex].id != goalId
        invariant 0 <= goalIndex <= |goals|
        invariant forall j :: 0 <= j < goalIndex ==> goals[j].id != goalId
      {
        goalIndex := goalIndex + 1;
      }
      if goalIndex < |goals| {
        assert IndexOfGoal(goals, goalId) == Some(goalIndex);
        var goal := goals[goalIndex];
        var updatedMilestones := FlipMilestones(goal.milestones, milestoneId, now);
        var completedCount := CompletedCount(updatedMilestones);
        var newProgress := if |updatedMilestones| > 0 then completedCount as real / |updatedMilestones| as real else 0.0;
        goals := goals[goalIndex := goal.(milestones := updatedMilestones, progress := newProgress, updatedAt := now)];
      }
    }

    /** Pin or unpin the note, save, and publish the notes pinned first. */
    method ToggleNotePin(noteId: string)
      modifies this
      ensures IndexOfNote(old(storedNotes), noteId).None? ==> State() == old(State())
      ensures IndexOfNote(old(storedNotes), noteId).Some? ==>
        State() == old(State()).(storedNotes := PinToggled(old(storedNotes), noteId),
                                 notes := PinnedFirst(PinToggled(old(storedNotes), noteId)))
    {
      var index := 0;
      while index < |storedNotes| && storedNotes[index].id != noteId
        invariant 0 <= index <= |storedNotes|
        invariant forall j :: 0 <= j < index ==> storedNotes[j].id != noteId
      {
        index := index + 1;
      }
      if index < |storedNotes| {
        assert IndexOfNote(storedNotes, noteId) == Some(index);
        storedNotes := storedNotes[index := storedNotes[index].(isPinned := !storedNotes[index].isPinned)];
        notes := PinnedFirst(storedNotes);
      }
    }

    /** The guard at the head of a sync. */
    method BeginSync() returns (started: bool)
      modifies this
      ensures started == Begin(old(Sync())).0
      ensures State() == old(State()).(sync := Begin(old(Sync())).1)
    {
      if isSyncing {
        return false;
      }
      isSyncing := true;
      started := true;
    }

    /** The end of syncToCloud, once the upload has come back. */
    method FinishSyncToCloud(outcome: UploadOutcome, now: int)
      requires isSyncing
      modifies this
      ensures State() == old(State()).(sync := FinishUpload(old(Sync()), outcome, now))
    {
      if outcome.Uploaded? {
        lastSyncTime := Some(now);
      }
      snackbarMessage := Some(UploadMessage(outcome));
      isSyncing := false;
    }

    /** The end of syncFromCloud, once the download (and any import) has come back. */
    method FinishSyncFromCloud(outcome: DownloadOutcome, now: int)
      requires isSyncing
      modifies this
      ensures State() == old(State()).(sync := FinishDownload(old(Sync()), outcome, now))
    {
      if outcome == Downloaded(true) {
        lastSyncTime := Some(now);
      }
      snackbarMessage := Some(DownloadMessage(outcome));
      isSyncing := false;
    }

    method SyncToCloud(outcome: UploadOutcome, now: int)
      modifies this
      ensures State() == old(State()).(sync := CloudSync.SyncToCloud(old(Sync()), outcome, now))
    {
      var started := BeginSync();
      if started {
        FinishSyncToCloud(outcome, now);
      }
    }

    method SyncFromCloud(outcome: DownloadOutcome, now: int)
      modifies this
      ensures State() == old(State()).(sync := CloudSync.SyncFromCloud(old(Sync()), outcome, now))
    {
      var started := BeginSync();
      if started {
        FinishSyncFromCloud(outcome, now);
      }
    }

    /** Upload only when the device is online. */
    method AutoSync(online: bool, outcome: UploadOutcome, now: int)
      modifies this
      ensures !online ==> State() == old(State())
      ensures online ==> State() == old(State()).(sync := CloudSync.SyncToCloud(old(Sync()), outcome, now))
    {
      if online {
        SyncToCloud(outcome, now);
      }
    }

    /** The calendar day: the day's tasks, events, reminders and notes with a reminder,
        appended in that order and then ordered by time. */
    method GetAllItemsForDate(date: int) returns (items: seq<CalendarItem>)
      ensures items == ItemsForDate(tasks, events, reminders, notes, date)
    {
      var dayTasks := TasksForDate(tasks, date);
      var dayEvents := EventsForDate(events, date);
      var dayReminders := RemindersForDate(reminders, date);
      var dayNotes := NotesForDate(notes, date);
      var collected := AppendItems([], dayTasks, TaskItemOn(date));
      collected := AppendItems(collected, dayEvents, EventItem);
      collected := AppendItems(collected, dayReminders, ReminderItem);
      collected := AppendItems(collected, dayNotes, NoteItemOn(date));
      assert [] + Items(dayTasks, TaskItemOn(date)) == Items(dayTasks, TaskItemOn(date));
      items := SortBy(collected, DateKey);
    }

    /** getHabitStats, with the streak loops; the longest streak is the corrected one. */
    method GetHabitStats(habitId: string, now: int) returns (stats: HabitStats)
      ensures stats == HabitStatsOf(habits, habitEntries, habitId, now)
    {
      var found := FindHabit(habits, habitId);
      if found.None? {
        return NoHabitStats(habitId);
      }
      var habit := found.value;
      var completedEntries := CompletedEntries(habitEntries, habit.goalId);
      var sortedDates := SortedDays(Dates(completedEntries));
      var today := StartOfDay(now);
      var currentStreak := CurrentStreak(sortedDates, today);
      var longestStreak := LongestStreak(sortedDates);
      var totalDays := TotalDays(now, habit.createdAt);
      var completionRate := (|completedEntries| as real) / (totalDays as real);
      stats := HabitStats(habitId, currentStreak, longestStreak, completionRate, |completedEntries|,
                          totalDays, MaxOf(Dates(completedEntries)));
    }

    /** getJournalStats, with the streak loops; the longest streak is the corrected one. */
    method GetJournalStats(now: int, monthStart: int) returns (stats: JournalStats)
      ensures stats == JournalStatsOf(journalEntries, now, monthStart)
    {
      var entries := journalEntries;
      var sortedDates := SortedDays(EntryDates(entries));
      var today := StartOfDay(now);
      var currentStreak := CurrentStreak(sortedDates, today);
      var longestStreak := LongestStreak(sortedDates);
      stats := JournalStats(|entries|, |Filter(entries, (e: JournalEntry) => e.date >= monthStart)|,
                            AverageMood(entries), longestStreak, currentStreak, MostUsedTags(entries));
    }
  }
}
