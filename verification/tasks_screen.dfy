/** The task list screen's classification rules: the filter tabs, the search match, the
    sort order and the date-wise group labels. */
module TasksScreen {
  import opened Wrappers
  import opened Seqs
  import opened TimeUtil
  import opened Text
  import opened Sorting
  import opened TaskModel

  datatype TaskFilter = ALL | TODAY | UPCOMING | COMPLETED | OVERDUE
  {
    function DisplayName(): string {
      match this
      case ALL => "All Tasks"
      case TODAY => "Today"
      case UPCOMING => "Upcoming"
      case COMPLETED => "Done"
      case OVERDUE => "Overdue"
    }
  }

  /** The selected tab's predicate; `today` is the start of the current day. */
  predicate MatchesFilter(t: Task, f: TaskFilter, today: int) {
    var tomorrow := today + DayMs;
    match f
    case ALL => true
    case TODAY => t.dueDate.Some? && today <= t.dueDate.value < tomorrow
    case UPCOMING => !t.isCompleted && (t.dueDate.None? || t.dueDate.value >= tomorrow)
    case COMPLETED => t.isCompleted
    case OVERDUE => !t.isCompleted && t.dueDate.Some? && t.dueDate.value < today
  }

  /** Title or description contains the query, ignoring case. */
  predicate MatchesSearch(t: Task, query: string) {
    ContainsIgnoreCase(t.title, query) || ContainsIgnoreCase(t.description, query)
  }

  /** The predicate of filteredTasks: the selected tab and the search query both match. */
  function Shown(f: TaskFilter, query: string, now: int): Task -> bool {
    (t: Task) => MatchesFilter(t, f, StartOfDay(now)) && MatchesSearch(t, query)
  }

  /** filteredTasks; `now` stands for the clock read when the screen is composed. */
  function Filtered(ts: seq<Task>, f: TaskFilter, query: string, now: int): (r: seq<Task>)
    ensures |r| <= |ts|
    ensures forall t :: t in r <==> t in ts && MatchesFilter(t, f, StartOfDay(now)) && MatchesSearch(t, query)
  {
    Filter(ts, Shown(f, query, now))
  }

  /** The filtered list keeps the stored order: filtering a concatenation filters each part,
      and one task is kept exactly when it matches both the tab and the search. */
  lemma FilteredKeepsOrder(a: seq<Task>, b: seq<Task>, t: Task, f: TaskFilter, query: string, now: int)
    ensures Filtered(a + b, f, query, now) == Filtered(a, f, query, now) + Filtered(b, f, query, now)
    ensures Filtered([t], f, query, now)
      == if MatchesFilter(t, f, StartOfDay(now)) && MatchesSearch(t, query) then [t] else []
  {
    FilterAppend(a, b, Shown(f, query, now));
    FilterOne(t, Shown(f, query, now));
  }

  /** Incomplete before completed, then by due date with undated last. */
  function SortKey(t: Task): Key {
    Key(if t.isCompleted then 1 else 0, t.dueDate.GetOr(LongMax))
  }

  function GroupLabel(t: Task, today: int, formatDate: int -> string): string {
    var tomorrow := today + DayMs;
    var dayAfterTomorrow := tomorrow + DayMs;
    if t.isCompleted then "Completed \U{2705}"
    else if t.dueDate.None? then "No Deadline \U{1F4C5}"
    else if t.dueDate.value < today then "Overdue \U{26A0}\U{FE0F}"
    else if t.dueDate.value < tomorrow then "Today \U{26A1}"
    else if t.dueDate.value < dayAfterTomorrow then "Tomorrow \U{1F305}"
    else formatDate(t.dueDate.value)
  }

  // ---------------------------------------------------------------- groupBy

  /** One entry of the insertion-ordered map `groupBy` builds. */
  datatype Group = Group(key: string, tasks: seq<Task>)

  /** `getOrPut(label) { ArrayList() }.add(t)`: append to the existing group, or open a new
      group at the end. */
  function AddToGroups(gs: seq<Group>, lbl: string, t: Task): seq<Group> {
    if gs == [] then [Group(lbl, [t])]
    else if gs[0].key == lbl then [gs[0].(tasks := gs[0].tasks + [t])] + gs[1..]
    else [gs[0]] + AddToGroups(gs[1..], lbl, t)
  }

  function GroupBy(ts: seq<Task>, labelOf: Task -> string): seq<Group> {
    if ts == [] then []
    else AddToGroups(GroupBy(ts[..|ts| - 1], labelOf), labelOf(ts[|ts| - 1]), ts[|ts| - 1])
  }

  /** groupedTasks: the filtered tasks sorted, then grouped under their labels. */
  function GroupedTasks(filtered: seq<Task>, now: int, formatDate: int -> string): seq<Group> {
    GroupBy(SortBy(filtered, SortKey), t => GroupLabel(t, StartOfDay(now), formatDate))
  }

  /** The tasks of ts with the given lbl, in order. */
  function WithLabel(ts: seq<Task>, labelOf: Task -> string, lbl: string): seq<Task> {
    if ts == [] then []
    else WithLabel(ts[..|ts| - 1], labelOf, lbl) + (if labelOf(ts[|ts| - 1]) == lbl then [ts[|ts| - 1]] else [])
  }

  /** The groups partition ts: labels are distinct, each group holds exactly the tasks with
      its label in their order, and every task's label has a group. */
  ghost predicate Partitions(gs: seq<Group>, ts: seq<Task>, labelOf: Task -> string) {
    (forall i, j :: 0 <= i < j < |gs| ==> gs[i].key != gs[j].key)
    && (forall i :: 0 <= i < |gs| ==> gs[i].tasks == WithLabel(ts, labelOf, gs[i].key) && gs[i].tasks != [])
    && (forall k :: 0 <= k < |ts| ==> exists i :: 0 <= i < |gs| && gs[i].key == labelOf(ts[k]))
  }

  function HasLabel(labelOf: Task -> string, lbl: string): Task -> bool {
    (t: Task) => labelOf(t) == lbl
  }

  /** The index of the first task with the label, or |ts| when none has it. */
  function FirstUse(ts: seq<Task>, labelOf: Task -> string, lbl: string): nat {
    match IndexOfFirst(ts, HasLabel(labelOf, lbl))
    case Some(i) => i
    case None => |ts|
  }

  /** The groups come in the order their labels first appear in ts. */
  ghost predicate FirstAppearanceOrder(gs: seq<Group>, ts: seq<Task>, labelOf: Task -> string) {
    forall i, j :: 0 <= i < j < |gs| ==> FirstUse(ts, labelOf, gs[i].key) < FirstUse(ts, labelOf, gs[j].key)
  }

  /** groupBy partitions ts into groups listed in the order their labels first appear. */
  lemma GroupByPartitions(ts: seq<Task>, labelOf: Task -> string)
    ensures Partitions(GroupBy(ts, labelOf), ts, labelOf)
    ensures FirstAppearanceOrder(GroupBy(ts, labelOf), ts, labelOf)
  {
    GroupByExact(ts, labelOf);
    GroupByOrder(ts, labelOf);
  }

  lemma {:induction false} GroupByExact(ts: seq<Task>, labelOf: Task -> string)
    ensures Partitions(GroupBy(ts, labelOf), ts, labelOf)
  {
    if ts != [] {
      var init, x := ts[..|ts| - 1], ts[|ts| - 1];
      var gs := GroupBy(init, labelOf);
      GroupByExact(init, labelOf);
      AddToGroupsSpec(gs, labelOf(x), x);
      assert AddToGroups(gs, labelOf(x), x) == GroupBy(ts, labelOf);
      assert ts == init + [x];
      StepGroupsExact(gs, init, x, labelOf);
      StepKeysDistinct(gs, init, x, labelOf);
      StepCovers(gs, init, x, labelOf);
    }
  }

  lemma {:induction false} GroupByOrder(ts: seq<Task>, labelOf: Task -> string)
    ensures FirstAppearanceOrder(GroupBy(ts, labelOf), ts, labelOf)
  {
    if ts != [] {
      var init, x := ts[..|ts| - 1], ts[|ts| - 1];
      GroupByExact(init, labelOf);
      GroupByOrder(init, labelOf);
      StepOrder(GroupBy(init, labelOf), init, x, labelOf);
      assert ts == init + [x];
    }
  }

  /** Of two tasks with different labels, the first one's group must come first: the
      groups listed the other way round are not in first-appearance order. */
  lemma LaterLabelNotFirst(a: Task, b: Task, labelOf: Task -> string)
    requires labelOf(a) != labelOf(b)
    ensures !FirstAppearanceOrder([Group(labelOf(b), [b]), Group(labelOf(a), [a])], [a, b], labelOf)
    ensures FirstAppearanceOrder(GroupBy([a, b], labelOf), [a, b], labelOf)
  {
    assert HasLabel(labelOf, labelOf(a))([a, b][0]);
    assert FirstUse([a, b], labelOf, labelOf(a)) == 0;
    assert HasLabel(labelOf, labelOf(b))([a, b][1]) && !HasLabel(labelOf, labelOf(b))([a, b][0]);
    assert FirstUse([a, b], labelOf, labelOf(b)) == 1;
    var gs := [Group(labelOf(b), [b]), Group(labelOf(a), [a])];
    assert gs[0].key == labelOf(b) && gs[1].key == labelOf(a);
    GroupByPartitions([a, b], labelOf);
  }

  /** After adding x, the groups are still in first-appearance order. */
  lemma StepOrder(gs: seq<Group>, init: seq<Task>, x: Task, labelOf: Task -> string)
    requires Partitions(gs, init, labelOf) && FirstAppearanceOrder(gs, init, labelOf)
    ensures FirstAppearanceOrder(AddToGroups(gs, labelOf(x), x), init + [x], labelOf)
  {
    var lx := labelOf(x);
    AddToGroupsSpec(gs, lx, x);
    var r := AddToGroups(gs, lx, x);
    if |r| > |gs| {
      NoLabel(init, labelOf, lx, gs);
      NewLabelFirstUse(init, x, labelOf);
    }
    forall i | 0 <= i < |gs|
      ensures FirstUse(init + [x], labelOf, gs[i].key) == FirstUse(init, labelOf, gs[i].key) < |init|
    {
      OldGroupFirstUse(gs, init, x, labelOf, i);
    }
    OrderAfterAdd(gs, r, init, x, labelOf);
  }

  lemma OrderAfterAdd(gs: seq<Group>, r: seq<Group>, init: seq<Task>, x: Task, labelOf: Task -> string)
    requires |gs| <= |r| <= |gs| + 1
    requires forall i :: 0 <= i < |gs| ==> r[i].key == gs[i].key
    requires |r| > |gs| ==> r[|gs|].key == labelOf(x) && FirstUse(init + [x], labelOf, labelOf(x)) == |init|
    requires forall i :: 0 <= i < |gs| ==>
      FirstUse(init + [x], labelOf, gs[i].key) == FirstUse(init, labelOf, gs[i].key) < |init|
    requires FirstAppearanceOrder(gs, init, labelOf)
    ensures FirstAppearanceOrder(r, init + [x], labelOf)
  {
    forall i, j | 0 <= i < j < |r|
      ensures FirstUse(init + [x], labelOf, r[i].key) < FirstUse(init + [x], labelOf, r[j].key)
    {
      assert r[i].key == gs[i].key;
      if j < |gs| {
        assert r[j].key == gs[j].key;
      }
    }
  }

  /** An existing group's label keeps its first use, which lies within init. */
  lemma OldGroupFirstUse(gs: seq<Group>, init: seq<Task>, x: Task, labelOf: Task -> string, i: nat)
    requires i < |gs| && gs[i].tasks == WithLabel(init, labelOf, gs[i].key) && gs[i].tasks != []
    ensures FirstUse(init + [x], labelOf, gs[i].key) == FirstUse(init, labelOf, gs[i].key) < |init|
  {
    UsedLabelFirstUse(init, labelOf, gs[i].key);
    FirstUseSnoc(init, x, labelOf, gs[i].key);
  }

  /** A label no task of init has is first used by x. */
  lemma NewLabelFirstUse(init: seq<Task>, x: Task, labelOf: Task -> string)
    requires WithLabel(init, labelOf, labelOf(x)) == []
    ensures FirstUse(init + [x], labelOf, labelOf(x)) == |init|
  {
    WithLabelMembers(init, labelOf, labelOf(x));
    assert forall k :: 0 <= k < |init| ==> labelOf(init[k]) != labelOf(x) by {
      forall k | 0 <= k < |init| ensures labelOf(init[k]) != labelOf(x) {
        assert init[k] in init;
      }
    }
    FirstUseSnoc(init, x, labelOf, labelOf(x));
  }

  /** A label used in ts is first used at an index below |ts|. */
  lemma UsedLabelFirstUse(ts: seq<Task>, labelOf: Task -> string, lbl: string)
    requires WithLabel(ts, labelOf, lbl) != []
    ensures FirstUse(ts, labelOf, lbl) < |ts|
  {
    LabelOccurs(ts, labelOf, lbl);
    var k :| 0 <= k < |ts| && labelOf(ts[k]) == lbl;
    assert HasLabel(labelOf, lbl)(ts[k]);
  }

  /** Appending x keeps a label's first use if the label was used, and otherwise makes x its
      first use when x has it. */
  lemma FirstUseSnoc(ts: seq<Task>, x: Task, labelOf: Task -> string, lbl: string)
    ensures FirstUse(ts, labelOf, lbl) < |ts| ==> FirstUse(ts + [x], labelOf, lbl) == FirstUse(ts, labelOf, lbl)
    ensures (forall k :: 0 <= k < |ts| ==> labelOf(ts[k]) != lbl) && labelOf(x) == lbl ==>
      FirstUse(ts + [x], labelOf, lbl) == |ts|
  {
    var p := HasLabel(labelOf, lbl);
    var s := ts + [x];
    assert forall k :: 0 <= k < |ts| ==> s[k] == ts[k];
    assert s[|ts|] == x;
    var a := IndexOfFirst(ts, p);
    var b := IndexOfFirst(s, p);
    if a.Some? {
      assert p(s[a.value]);
      assert b.Some? && b.value <= a.value;
    }
  }

  /** A label whose group is not empty is the label of some task. */
  lemma LabelOccurs(ts: seq<Task>, labelOf: Task -> string, lbl: string)
    requires WithLabel(ts, labelOf, lbl) != []
    ensures exists k :: 0 <= k < |ts| && labelOf(ts[k]) == lbl
  {
    WithLabelMembers(ts, labelOf, lbl);
    var t := WithLabel(ts, labelOf, lbl)[0];
    assert t in ts;
    var k :| 0 <= k < |ts| && ts[k] == t;
  }

  /** After adding x, each group holds exactly the tasks with its label. */
  lemma StepGroupsExact(gs: seq<Group>, init: seq<Task>, x: Task, labelOf: Task -> string)
    requires Partitions(gs, init, labelOf)
    ensures var r := AddToGroups(gs, labelOf(x), x);
      forall i :: 0 <= i < |r| ==> r[i].tasks == WithLabel(init + [x], labelOf, r[i].key) && r[i].tasks != []
  {
    var lx := labelOf(x);
    if forall i :: 0 <= i < |gs| ==> gs[i].key != lx {
      NoLabel(init, labelOf, lx, gs);
    }
    var r := AddToGroups(gs, lx, x);
    forall i | 0 <= i < |r|
      ensures r[i].tasks == WithLabel(init + [x], labelOf, r[i].key) && r[i].tasks != []
    {
      StepGroupExact(gs, init, x, labelOf, i);
    }
  }

  lemma StepGroupExact(gs: seq<Group>, init: seq<Task>, x: Task, labelOf: Task -> string, i: nat)
    requires forall i, j :: 0 <= i < j < |gs| ==> gs[i].key != gs[j].key
    requires forall j :: 0 <= j < |gs| ==> gs[j].tasks == WithLabel(init, labelOf, gs[j].key) && gs[j].tasks != []
    requires (forall j :: 0 <= j < |gs| ==> gs[j].key != labelOf(x)) ==> WithLabel(init, labelOf, labelOf(x)) == []
    requires i < |AddToGroups(gs, labelOf(x), x)|
    ensures var r := AddToGroups(gs, labelOf(x), x);
      r[i].tasks == WithLabel(init + [x], labelOf, r[i].key) && r[i].tasks != []
  {
    AddToGroupsSpec(gs, labelOf(x), x);
    var r := AddToGroups(gs, labelOf(x), x);
    WithLabelSnoc(init, x, labelOf, r[i].key);
  }

  lemma WithLabelSnoc(init: seq<Task>, x: Task, labelOf: Task -> string, lbl: string)
    ensures WithLabel(init + [x], labelOf, lbl) == WithLabel(init, labelOf, lbl) + (if labelOf(x) == lbl then [x] else [])
  {
    assert (init + [x])[..|init|] == init;
  }

  /** After adding x, the labels are still distinct. */
  lemma StepKeysDistinct(gs: seq<Group>, init: seq<Task>, x: Task, labelOf: Task -> string)
    requires Partitions(gs, init, labelOf)
    ensures var r := AddToGroups(gs, labelOf(x), x);
      forall i, j :: 0 <= i < j < |r| ==> r[i].key != r[j].key
  {
    AddToGroupsSpec(gs, labelOf(x), x);
  }

  /** After adding x, every task's label has a group. */
  lemma StepCovers(gs: seq<Group>, init: seq<Task>, x: Task, labelOf: Task -> string)
    requires Partitions(gs, init, labelOf)
    ensures var r := AddToGroups(gs, labelOf(x), x);
      forall k :: 0 <= k < |init + [x]| ==> exists i :: 0 <= i < |r| && r[i].key == labelOf((init + [x])[k])
  {
    var lx := labelOf(x);
    AddToGroupsSpec(gs, lx, x);
    var r := AddToGroups(gs, lx, x);
    var ts := init + [x];
    var present := exists i :: 0 <= i < |gs| && gs[i].key == lx;
    forall k | 0 <= k < |ts|
      ensures exists i :: 0 <= i < |r| && r[i].key == labelOf(ts[k])
    {
      if k < |init| {
        assert ts[k] == init[k];
        var i :| 0 <= i < |gs| && gs[i].key == labelOf(init[k]);
        assert r[i].key == gs[i].key;
      } else if present {
        var i :| 0 <= i < |gs| && gs[i].key == lx;
        assert r[i].key == lx;
      } else {
        assert r[|gs|].key == lx;
      }
    }
  }

  /** A label without a group has no tasks. */
  lemma NoLabel(ts: seq<Task>, labelOf: Task -> string, lbl: string, gs: seq<Group>)
    requires Partitions(gs, ts, labelOf)
    requires forall i :: 0 <= i < |gs| ==> gs[i].key != lbl
    ensures WithLabel(ts, labelOf, lbl) == []
  {
    forall k | 0 <= k < |ts| ensures labelOf(ts[k]) != lbl {
      assert exists i :: 0 <= i < |gs| && gs[i].key == labelOf(ts[k]);
      var i :| 0 <= i < |gs| && gs[i].key == labelOf(ts[k]);
    }
    WithLabelNone(ts, labelOf, lbl);
  }

  lemma {:induction false} WithLabelNone(ts: seq<Task>, labelOf: Task -> string, lbl: string)
    requires forall k :: 0 <= k < |ts| ==> labelOf(ts[k]) != lbl
    ensures WithLabel(ts, labelOf, lbl) == []
  {
    if ts != [] {
      WithLabelNone(ts[..|ts| - 1], labelOf, lbl);
    }
  }

  lemma {:induction false} WithLabelMembers(ts: seq<Task>, labelOf: Task -> string, lbl: string)
    ensures forall t :: t in WithLabel(ts, labelOf, lbl) <==> t in ts && labelOf(t) == lbl
  {
    if ts != [] {
      WithLabelMembers(ts[..|ts| - 1], labelOf, lbl);
      assert ts == ts[..|ts| - 1] + [ts[|ts| - 1]];
    }
  }

  /** The effect of one getOrPut-and-add: labels keep their places; the task joins its
      label's group, which is new and last when the label was absent. */
  lemma {:induction false} AddToGroupsSpec(gs: seq<Group>, lbl: string, t: Task)
    requires forall i, j :: 0 <= i < j < |gs| ==> gs[i].key != gs[j].key
    ensures |AddToGroups(gs, lbl, t)| >= |gs|
    ensures var r := AddToGroups(gs, lbl, t);
      (forall i :: 0 <= i < |gs| ==> (r[i].key == gs[i].key
         && r[i].tasks == gs[i].tasks + (if gs[i].key == lbl then [t] else [])))
      && (if exists i :: 0 <= i < |gs| && gs[i].key == lbl then |r| == |gs|
          else |r| == |gs| + 1 && r[|gs|] == Group(lbl, [t]))
  {
    if gs != [] && gs[0].key != lbl {
      assert forall i, j :: 0 <= i < j < |gs[1..]| ==> gs[1..][i].key != gs[1..][j].key by {
        forall i, j | 0 <= i < j < |gs[1..]| ensures gs[1..][i].key != gs[1..][j].key {
          assert gs[1..][i] == gs[i + 1] && gs[1..][j] == gs[j + 1];
        }
      }
      AddToGroupsSpec(gs[1..], lbl, t);
      var r := AddToGroups(gs, lbl, t);
      forall i | 0 <= i < |gs| ensures r[i].key == gs[i].key
        && r[i].tasks == gs[i].tasks + (if gs[i].key == lbl then [t] else [])
      {
        if i > 0 { assert r[i] == AddToGroups(gs[1..], lbl, t)[i - 1]; }
      }
      var rest := AddToGroups(gs[1..], lbl, t);
      assert r == [gs[0]] + rest;
      if exists i :: 0 <= i < |gs| && gs[i].key == lbl {
        var i :| 0 <= i < |gs| && gs[i].key == lbl;
        assert i > 0;
        assert gs[1..][i - 1].key == lbl;
      } else {
        assert forall i :: 0 <= i < |gs[1..]| ==> gs[1..][i].key != lbl by {
          forall i | 0 <= i < |gs[1..]| ensures gs[1..][i].key != lbl {
            assert gs[1..][i] == gs[i + 1];
          }
        }
        assert r[|gs|] == rest[|gs| - 1];
      }
    }
  }

  // ---------------------------------------------------------------- properties

  /** OVERDUE shares no task with COMPLETED or with UPCOMING. */
  lemma OverdueDisjoint(t: Task, today: int)
    requires MatchesFilter(t, OVERDUE, today)
    ensures !MatchesFilter(t, COMPLETED, today) && !MatchesFilter(t, UPCOMING, today)
  {
  }

  /** TODAY is the day bucket of the current day, completed tasks included. */
  lemma TodayIsTheDayBucket(t: Task, now: int)
    ensures MatchesFilter(t, TODAY, StartOfDay(now)) <==> t.dueDate.Some? && StartOfDay(t.dueDate.value) == StartOfDay(now)
    ensures MatchesFilter(t.(isCompleted := true), TODAY, StartOfDay(now)) == MatchesFilter(t, TODAY, StartOfDay(now))
  {
    if t.dueDate.Some? {
      InDayOfBoundary(t.dueDate.value, StartOfDay(now));
    }
  }

  /** An empty query keeps every task; ALL keeps exactly the tasks that match the search. */
  lemma SearchAndAll(ts: seq<Task>, query: string, now: int)
    ensures forall t :: t in Filtered(ts, ALL, query, now) <==> t in ts && MatchesSearch(t, query)
    ensures Filtered(ts, ALL, "", now) == ts
  {
    AllEmptyQuery(ts, now);
  }

  lemma AllEmptyQuery(ts: seq<Task>, now: int)
    ensures Filtered(ts, ALL, "", now) == ts
  {
    forall i | 0 <= i < |ts| ensures Shown(ALL, "", now)(ts[i]) {
      EmptyNeedleMatches(ts[i].title);
    }
    FilterAllOrNone(ts, Shown(ALL, "", now));
  }


  /** The sorted list is a permutation of the filtered one in which incomplete tasks come
      first and, within each part, due dates ascend with undated tasks last. */
  lemma SortOrder(filtered: seq<Task>)
    ensures var s := SortBy(filtered, SortKey);
      multiset(s) == multiset(filtered)
      && (forall i, j :: 0 <= i < j < |s| ==> !(s[i].isCompleted && !s[j].isCompleted))
      && (forall i, j :: 0 <= i < j < |s| && s[i].isCompleted == s[j].isCompleted ==>
            s[i].dueDate.GetOr(LongMax) <= s[j].dueDate.GetOr(LongMax))
  {
    var s := SortBy(filtered, SortKey);
    forall i, j | 0 <= i < j < |s| ensures KeyLe(SortKey(s[i]), SortKey(s[j])) {
    }
  }

  /** Grouping partitions the sorted filtered tasks, so each lands in exactly one group, and
      completed tasks always sit in the Completed group. */
  lemma GroupsPartition(filtered: seq<Task>, now: int, formatDate: int -> string)
    ensures var gs := GroupedTasks(filtered, now, formatDate);
      var labelOf := t => GroupLabel(t, StartOfDay(now), formatDate);
      Partitions(gs, SortBy(filtered, SortKey), labelOf)
      && FirstAppearanceOrder(gs, SortBy(filtered, SortKey), labelOf)
      && (forall t :: t in filtered ==> exists i :: 0 <= i < |gs| && gs[i].key == labelOf(t))
      && (forall i, t :: 0 <= i < |gs| && t in gs[i].tasks && t.isCompleted ==> gs[i].key == "Completed \U{2705}")
  {
    var labelOf := t => GroupLabel(t, StartOfDay(now), formatDate);
    var s := SortBy(filtered, SortKey);
    var gs := GroupedTasks(filtered, now, formatDate);
    GroupByPartitions(s, labelOf);
    forall t | t in filtered ensures exists i :: 0 <= i < |gs| && gs[i].key == labelOf(t) {
      assert t in multiset(s);
      var k :| 0 <= k < |s| && s[k] == t;
    }
    forall i, t | 0 <= i < |gs| && t in gs[i].tasks && t.isCompleted
      ensures gs[i].key == "Completed \U{2705}"
    {
      WithLabelMembers(s, labelOf, gs[i].key);
    }
  }

  /** The label of an incomplete dated task follows its day: earlier days are Overdue, the
      current day Today, the next day Tomorrow, and later days get a formatted date. */
  lemma LabelByDay(t: Task, now: int, formatDate: int -> string)
    requires !t.isCompleted && t.dueDate.Some?
    ensures var today, day := StartOfDay(now), StartOfDay(t.dueDate.value);
      var lbl := GroupLabel(t, today, formatDate);
      (day < today ==> lbl == "Overdue \U{26A0}\U{FE0F}")
      && (day == today ==> lbl == "Today \U{26A1}")
      && (day == today + DayMs ==> lbl == "Tomorrow \U{1F305}")
      && (day > today + DayMs ==> lbl == formatDate(t.dueDate.value))
  {
    var today, d := StartOfDay(now), t.dueDate.value;
    BeforeBoundary(d, today);
    BeforeBoundary(d, today + DayMs);
    BeforeBoundary(d, today + 2 * DayMs);
    InDayOfBoundary(d, today);
    InDayOfBoundary(d, today + DayMs);
  }
}
