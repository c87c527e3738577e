/** What the habit and journal statistics report, as functions of the stored records and
    the clock. The view model computes them with the streak loops of the Streaks module. */
module GoalStats {
  import opened Wrappers
  import opened Seqs
  import opened TimeUtil
  import opened Text
  import opened Sorting
  import opened GoalModel
  import opened Streaks
  import opened GoalQueries
  import TaskModel

  datatype HabitStats = HabitStats(habitId: string, currentStreak: nat, longestStreak: nat,
                                   completionRate: real, totalCompletions: nat, totalDays: int,
                                   lastCompletedDate: Option<int>)

  /** The statistics of a habit that does not exist: everything zero. */
  function NoHabitStats(habitId: string): HabitStats {
    HabitStats(habitId, 0, 0, 0.0, 0, 0, None)
  }

  /** Division of a Long by a positive Long: Kotlin truncates toward zero. */
  function TruncDiv(a: int, b: int): (q: int)
    requires b > 0
    ensures a >= 0 ==> q == a / b
    ensures a < 0 ==> q == -((-a) / b)
  {
    if a >= 0 then a / b else -((-a) / b)
  }

  /** Long.toInt(): keeps the low 32 bits as a signed value. */
  function ToInt32(x: int): (r: int)
    ensures -0x8000_0000 <= r < 0x8000_0000
    ensures -0x8000_0000 <= x < 0x8000_0000 ==> r == x
  {
    (x + 0x8000_0000) % 0x1_0000_0000 - 0x8000_0000
  }

  /** Whole days since the habit was created, at least 1. Within the 32-bit range of the
      day count, that is the elapsed whole days, with 1 for less than a day or a clock
      before the creation time. */
  function TotalDays(now: int, createdAt: int): (d: int)
    ensures d >= 1
    ensures 0 <= now - createdAt < 0x8000_0000 * DayMs ==>
      d == if now - createdAt < DayMs then 1 else (now - createdAt) / DayMs
    ensures -0x8000_0000 * DayMs < now - createdAt < 0 ==> d == 1
  {
    var days := ToInt32(TruncDiv(now - createdAt, DayMs));
    if days >= 1 then days else 1
  }

  function Dates(es: seq<TaskModel.HabitEntry>): (r: seq<int>)
    ensures |r| == |es|
    ensures forall i :: 0 <= i < |es| ==> r[i] == es[i].date
  {
    if es == [] then [] else [es[0].date] + Dates(es[1..])
  }

  /** `maxOfOrNull`. */
  function MaxOf(ds: seq<int>): (m: Option<int>)
    ensures m.None? <==> ds == []
    ensures m.Some? ==> m.value in ds && forall d :: d in ds ==> d <= m.value
  {
    if ds == [] then None
    else
      var rest := MaxOf(ds[1..]);
      assert forall d :: d in ds ==> d == ds[0] || d in ds[1..];
      if rest.None? || ds[0] >= rest.value then Some(ds[0]) else rest
  }

  /** The completed entries of the habit's goal (`getHabitEntriesForGoal`, then `isCompleted`). */
  function CompletedEntries(entries: seq<TaskModel.HabitEntry>, goalId: string): seq<TaskModel.HabitEntry> {
    Filter(Filter(entries, (e: TaskModel.HabitEntry) => e.goalId == goalId), (e: TaskModel.HabitEntry) => e.isCompleted)
  }

  /** getHabitStats with the corrected longest streak. */
  function HabitStatsOf(habits: seq<Habit>, entries: seq<TaskModel.HabitEntry>, habitId: string, now: int): HabitStats {
    match FindHabit(habits, habitId)
    case None => NoHabitStats(habitId)
    case Some(habit) => StatsOfCompletions(habitId, CompletedEntries(entries, habit.goalId), habit.createdAt, now)
  }

  /** The statistics of an existing habit, from its completed entries. */
  function StatsOfCompletions(habitId: string, completed: seq<TaskModel.HabitEntry>, createdAt: int, now: int): HabitStats {
    var days := SortedDays(Dates(completed));
    var totalDays := TotalDays(now, createdAt);
    HabitStats(habitId, StreakFrom(days, StartOfDay(now)), LongestRun(days),
               (|completed| as real) / (totalDays as real), |completed|, totalDays, MaxOf(Dates(completed)))
  }

  /** An unknown habit reports zeros. */
  lemma UnknownHabitStats(habits: seq<Habit>, entries: seq<TaskModel.HabitEntry>, habitId: string, now: int)
    requires forall h :: h in habits ==> h.id != habitId
    ensures HabitStatsOf(habits, entries, habitId, now) == NoHabitStats(habitId)
  {
  }

  /** For a known habit both streaks are bounded by the number of completions (several
      completions on one day count once), at least one day has elapsed, and the rate is
      completions per elapsed day. */
  lemma HabitStatsBounds(habits: seq<Habit>, entries: seq<TaskModel.HabitEntry>, habitId: string, now: int)
    requires exists h :: h in habits && h.id == habitId
    ensures var s := HabitStatsOf(habits, entries, habitId, now);
      s.currentStreak <= s.totalCompletions && s.longestStreak <= s.totalCompletions
      && s.totalDays >= 1 && s.completionRate == (s.totalCompletions as real) / (s.totalDays as real)
  {
    var habit := FindHabit(habits, habitId).value;
    CompletionStatsBounds(habitId, CompletedEntries(entries, habit.goalId), habit.createdAt, now);
  }

  lemma CompletionStatsBounds(habitId: string, completed: seq<TaskModel.HabitEntry>, createdAt: int, now: int)
    ensures var s := StatsOfCompletions(habitId, completed, createdAt, now);
      s.currentStreak <= s.totalCompletions && s.longestStreak <= s.totalCompletions && s.totalDays >= 1
    ensures var s := StatsOfCompletions(habitId, completed, createdAt, now);
      s.completionRate == (s.totalCompletions as real) / (s.totalDays as real)
  {
    var days := SortedDays(Dates(completed));
    assert LongestRun(days) == LongestRunBefore(days, |days|);
  }

  /** The last completion is reported exactly when there is one, and it is the date of a
      completed entry of the habit's goal that no other such entry follows. */
  lemma HabitLastCompleted(habits: seq<Habit>, entries: seq<TaskModel.HabitEntry>, habitId: string, now: int)
    requires exists h :: h in habits && h.id == habitId
    ensures var s := HabitStatsOf(habits, entries, habitId, now);
      var goalId := FindHabit(habits, habitId).value.goalId;
      (s.lastCompletedDate.None? <==> s.totalCompletions == 0)
      && (s.lastCompletedDate.Some? ==>
            (exists e :: e in entries && e.isCompleted && e.goalId == goalId && e.date == s.lastCompletedDate.value)
            && forall e :: e in entries && e.isCompleted && e.goalId == goalId ==> e.date <= s.lastCompletedDate.value)
  {
    var habit := FindHabit(habits, habitId).value;
    var completed := CompletedEntries(entries, habit.goalId);
    var s := StatsOfCompletions(habitId, completed, habit.createdAt, now);
    assert s.lastCompletedDate == MaxOf(Dates(completed)) && s.totalCompletions == |completed|;
    LatestCompletion(entries, habit.goalId);
  }

  lemma LatestCompletion(entries: seq<TaskModel.HabitEntry>, goalId: string)
    ensures var completed := CompletedEntries(entries, goalId);
      var m := MaxOf(Dates(completed));
      (m.None? <==> |completed| == 0)
      && (m.Some? ==>
            (exists e :: e in entries && e.isCompleted && e.goalId == goalId && e.date == m.value)
            && forall e :: e in entries && e.isCompleted && e.goalId == goalId ==> e.date <= m.value)
  {
    var completed := CompletedEntries(entries, goalId);
    var m := MaxOf(Dates(completed));
    if m.Some? {
      var k :| 0 <= k < |completed| && Dates(completed)[k] == m.value;
      assert completed[k] in completed;
      forall e | e in entries && e.isCompleted && e.goalId == goalId ensures e.date <= m.value {
        assert e in completed;
        var j :| 0 <= j < |completed| && completed[j] == e;
        assert Dates(completed)[j] == e.date;
        assert e.date in Dates(completed);
      }
    }
  }

  // ---------------------------------------------------------------- journal

  datatype JournalStats = JournalStats(totalEntries: nat, entriesThisMonth: nat, averageMood: real,
                                       longestStreak: nat, currentStreak: nat,
                                       mostUsedTags: seq<(string, nat)>)

  function MoodSum(es: seq<JournalEntry>): nat {
    if es == [] then 0 else es[0].mood + MoodSum(es[1..])
  }

  /** The mean mood ordinal, 0 without entries. */
  function AverageMood(es: seq<JournalEntry>): (avg: real)
    ensures es != [] ==> avg * (|es| as real) == MoodSum(es) as real
    ensures es == [] ==> avg == 0.0
  {
    if es == [] then 0.0 else (MoodSum(es) as real) / (|es| as real)
  }

  function EntryDates(es: seq<JournalEntry>): (r: seq<int>)
    ensures |r| == |es|
  {
    if es == [] then [] else [es[0].date] + EntryDates(es[1..])
  }

  /** `flatMap { it.tags }`. */
  function AllTags(es: seq<JournalEntry>): seq<string> {
    if es == [] then [] else es[0].tags + AllTags(es[1..])
  }

  function Occurrences(s: seq<string>, x: string): nat {
    if s == [] then 0 else (if s[0] == x then 1 else 0) + Occurrences(s[1..], x)
  }

  /** `groupingBy { it }.eachCount().toList()`: each tag once, in order of first use, with
      the number of times it was used. */
  function TagCounts(tags: seq<string>): (r: seq<(string, nat)>)
    ensures forall p :: p in r <==> p.0 in tags && p.1 == Occurrences(tags, p.0)
    ensures forall i, j :: 0 <= i < j < |r| ==> r[i].0 != r[j].0
    ensures forall i, j, k ::
      (0 <= i < j < |r| && 0 <= k < |tags| && tags[k] == r[j].0 ==> r[i].0 in tags[..k])
  {
    var distinct := Dedup(tags);
    DedupFirstUseOrder(tags);
    var r := seq(|distinct|, (i: int) requires 0 <= i < |distinct| => (distinct[i], Occurrences(tags, distinct[i])));
    assert forall p :: p in r ==> p.0 in distinct;
    assert forall p: (string, nat) :: p.0 in distinct && p.1 == Occurrences(tags, p.0) ==> p in r by {
      forall p: (string, nat) | p.0 in distinct && p.1 == Occurrences(tags, p.0) ensures p in r {
        var k :| 0 <= k < |distinct| && distinct[k] == p.0;
        assert r[k] == p;
      }
    }
    r
  }

  /** `sortedByDescending { it.second }`. */
  function CountDescKey(p: (string, nat)): Key {
    Key(-(p.1 as int), 0)
  }

  function MostUsedTags(es: seq<JournalEntry>): seq<(string, nat)> {
    Take(SortBy(TagCounts(AllTags(es)), CountDescKey), 5)
  }

  /** The top tags: at most five, each with its true use count, each listed once, most used
      first, no tag left out used more often than the last one listed, and tags used equally
      often listed in the order of their first use. */
  lemma MostUsedTagsSpec(es: seq<JournalEntry>)
    ensures var r := MostUsedTags(es);
      var tags := AllTags(es);
      |r| <= 5
      && (forall p :: p in r ==> p.0 in tags && p.1 == Occurrences(tags, p.0))
      && (forall i, j :: 0 <= i < j < |r| ==> r[i].1 >= r[j].1)
      && (forall i, j :: 0 <= i < j < |r| ==> r[i].0 != r[j].0)
      && multiset(r) <= multiset(TagCounts(tags))
      && (forall k :: WithKey(r, CountDescKey, k) <= WithKey(TagCounts(tags), CountDescKey, k))
      && (forall t :: t in tags && (forall p :: p in r ==> p.0 != t) ==> |r| == 5 && Occurrences(tags, t) <= r[4].1)
  {
    var tags := AllTags(es);
    var counts := TagCounts(tags);
    var r := MostUsedTags(es);
    SmallestFirst(counts, CountDescKey, 5);
    CountsDescending(r);
    DistinctTags(r, tags);
    forall t | t in tags && (forall p :: p in r ==> p.0 != t) ensures |r| == 5 && Occurrences(tags, t) <= r[4].1 {
      var p := (t, Occurrences(tags, t));
      assert p in counts;
      assert KeyLe(CountDescKey(r[4]), CountDescKey(p));
    }
  }

  lemma CountsDescending(r: seq<(string, nat)>)
    requires SortedBy(r, CountDescKey)
    ensures forall i, j :: 0 <= i < j < |r| ==> r[i].1 >= r[j].1
  {
    forall i, j | 0 <= i < j < |r| ensures r[i].1 >= r[j].1 {
      assert KeyLe(CountDescKey(r[i]), CountDescKey(r[j]));
    }
  }

  /** Taken from the counts without repetition, no tag is listed twice. */
  lemma DistinctTags(r: seq<(string, nat)>, tags: seq<string>)
    requires multiset(r) <= multiset(TagCounts(tags))
    ensures forall i, j :: 0 <= i < j < |r| ==> r[i].0 != r[j].0
  {
    var counts := TagCounts(tags);
    SubMultisetNoDuplicates(r, counts);
    forall i, j | 0 <= i < j < |r| ensures r[i].0 != r[j].0 {
      assert r[i] in multiset(counts) && r[j] in multiset(counts);
      assert r[i] in counts && r[j] in counts;
    }
  }

  /** getJournalStats with the corrected longest streak; `monthStart` is the first instant
      of the current month. */
  function JournalStatsOf(es: seq<JournalEntry>, now: int, monthStart: int): JournalStats {
    var days := SortedDays(EntryDates(es));
    JournalStats(|es|, |Filter(es, (e: JournalEntry) => e.date >= monthStart)|, AverageMood(es),
                 LongestRun(days), StreakFrom(days, StartOfDay(now)), MostUsedTags(es))
  }

  /** Entries this month are among all entries, and both streaks are bounded by the number of
      entries (several entries on one day count once). */
  lemma JournalStatsFacts(es: seq<JournalEntry>, now: int, monthStart: int)
    ensures var s := JournalStatsOf(es, now, monthStart);
      s.entriesThisMonth <= s.totalEntries && s.currentStreak <= s.totalEntries
      && s.longestStreak <= s.totalEntries && |s.mostUsedTags| <= 5
  {
    var days := SortedDays(EntryDates(es));
    assert LongestRun(days) == LongestRunBefore(days, |days|);
  }
}
