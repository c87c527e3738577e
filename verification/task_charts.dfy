/** The task statistics header: counts over the task list, the progress ratio, the
    headline and the badges shown under it. */
module TaskCharts {
  import opened Wrappers
  import opened Text
  import opened TaskModel
  import opened Ratio

  function CountWhere(ts: seq<Task>, p: Task -> bool): (n: nat)
    ensures n <= |ts|
  {
    if ts == [] then 0 else (if p(ts[0]) then 1 else 0) + CountWhere(ts[1..], p)
  }

  predicate IsDone(t: Task) { t.isCompleted }
  predicate IsOpenHigh(t: Task) { !t.isCompleted && t.priority == HIGH }
  /** Overdue here means due strictly before the current instant, not before today. */
  predicate IsOverdueAt(t: Task, now: int) { !t.isCompleted && t.dueDate.Some? && t.dueDate.value < now }

  datatype TaskStats = TaskStats(total: nat, completed: nat, progress: real, pending: int, highPriority: nat, overdue: nat)

  /** TaskStatsHeader's counts; `now` stands for the clock. */
  function Stats(ts: seq<Task>, now: int): TaskStats {
    var total := |ts|;
    var completed := CountWhere(ts, IsDone);
    TaskStats(
      total, completed,
      if total > 0 then completed as real / total as real else 0.0,
      total - completed,
      CountWhere(ts, IsOpenHigh),
      CountWhere(ts, t => IsOverdueAt(t, now)))
  }

  function Headline(s: TaskStats): string {
    if s.total == 0 then "No tasks yet"
    else NatToString(s.completed) + " of " + NatToString(s.total) + " completed"
  }

  datatype Badge = PendingBadge(n: int) | OverdueBadge(n: int) | HighBadge(n: int)

  /** The badge row: pending always, overdue and high only when non-zero. */
  function Badges(s: TaskStats): seq<Badge> {
    [PendingBadge(s.pending)]
    + (if s.overdue > 0 then [OverdueBadge(s.overdue)] else [])
    + (if s.highPriority > 0 then [HighBadge(s.highPriority)] else [])
  }

  lemma {:induction false} CountSplit(ts: seq<Task>, p: Task -> bool, q: Task -> bool)
    requires forall t :: q(t) == !p(t)
    ensures CountWhere(ts, p) + CountWhere(ts, q) == |ts|
  {
    if ts != [] {
      CountSplit(ts[1..], p, q);
    }
  }

  lemma {:induction false} CountMono(ts: seq<Task>, p: Task -> bool, q: Task -> bool)
    requires forall t :: p(t) ==> q(t)
    ensures CountWhere(ts, p) <= CountWhere(ts, q)
  {
    if ts != [] {
      CountMono(ts[1..], p, q);
    }
  }

  /** pending + completed = total; high-priority and overdue count only pending tasks; the
      progress is a ratio in [0, 1], equal to 1 exactly when every task of a non-empty list
      is done. */
  lemma CountsConsistent(ts: seq<Task>, now: int)
    ensures var s := Stats(ts, now);
      s.pending + s.completed == s.total && s.pending >= 0
      && s.highPriority <= s.pending && s.overdue <= s.pending
      && 0.0 <= s.progress <= 1.0
      && (s.progress == 1.0 <==> s.total > 0 && s.completed == s.total)
      && (s.total == 0 ==> s.progress == 0.0)
  {
    var s := Stats(ts, now);
    var open := (t: Task) => !IsDone(t);
    CountSplit(ts, IsDone, open);
    CountMono(ts, IsOpenHigh, open);
    CountMono(ts, t => IsOverdueAt(t, now), open);
    if s.total > 0 {
      RatioBounds(s.completed, s.total);
    }
  }

  /** Only an empty list reads "No tasks yet"; otherwise the headline starts with the
      completed count. */
  lemma HeadlineEmptyOnly(ts: seq<Task>, now: int)
    ensures var s := Stats(ts, now);
      (Headline(s) == "No tasks yet" <==> s.total == 0)
      && (s.total > 0 ==> Headline(s)[..|NatToString(s.completed)|] == NatToString(s.completed))
  {
    var s := Stats(ts, now);
    if s.total > 0 {
      var h := Headline(s);
      assert IsDigit(h[0]);
      assert !IsDigit("No tasks yet"[0]);
    }
  }

  /** The overdue and high-priority badges appear exactly when their counts are positive,
      after the pending badge. */
  lemma BadgesShownWhenPositive(s: TaskStats)
    ensures var b := Badges(s);
      b[0] == PendingBadge(s.pending)
      && ((exists i :: 0 <= i < |b| && b[i].OverdueBadge?) <==> s.overdue > 0)
      && ((exists i :: 0 <= i < |b| && b[i].HighBadge?) <==> s.highPriority > 0)
      && |b| == 1 + (if s.overdue > 0 then 1 else 0) + (if s.highPriority > 0 then 1 else 0)
  {
    var b := Badges(s);
    if s.overdue > 0 {
      assert b[1].OverdueBadge?;
    }
    if s.highPriority > 0 {
      assert b[|b| - 1].HighBadge?;
    }
  }
}
