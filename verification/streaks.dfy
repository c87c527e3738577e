/** Day streaks over a set of completion dates, shared by the habit and journal statistics.
    Dates are reduced to their day starts, de-duplicated and sorted newest first; the current
    streak walks that list back from today, the longest streak looks for the longest run of
    consecutive days in it. */
module Streaks {
  import opened TimeUtil
  import opened Text
  import opened Sorting

  /** Newest first, each day once. */
  predicate StrictlyDescending(ds: seq<int>) {
    forall i, j :: 0 <= i < j < |ds| ==> ds[i] > ds[j]
  }

  function DayStarts(dates: seq<int>): (r: seq<int>)
    ensures |r| == |dates|
    ensures forall i :: 0 <= i < |dates| ==> r[i] == StartOfDay(dates[i])
  {
    if dates == [] then [] else [StartOfDay(dates[0])] + DayStarts(dates[1..])
  }

  /** `sortedDescending()` as a stable sort on the negated value. */
  function DescendingKey(d: int): Key {
    Key(-d, 0)
  }

  /** `dates.map { getStartOfDay(it) }.distinct().sortedDescending()`: the days on which
      something happened, newest first, each once. */
  function SortedDays(dates: seq<int>): (ds: seq<int>)
    ensures StrictlyDescending(ds)
    ensures forall d :: d in ds <==> exists t :: t in dates && d == StartOfDay(t)
    ensures forall d :: d in ds ==> d % DayMs == 0
    ensures |ds| <= |dates|
  {
    var distinct := Dedup(DayStarts(dates));
    var ds := SortBy(distinct, DescendingKey);
    DistinctSortedIsStrict(distinct, ds);
    DedupNoLonger(DayStarts(dates));
    forall d ensures d in ds <==> exists t :: t in dates && d == StartOfDay(t) {
      assert d in ds <==> d in multiset(distinct);
      if d in DayStarts(dates) {
        var i :| 0 <= i < |dates| && DayStarts(dates)[i] == d;
        assert dates[i] in dates;
      }
    }
    ds
  }

  lemma {:induction false} DedupNoLonger<T(!new)>(s: seq<T>)
    ensures |Dedup(s)| <= |s|
  {
    if s != [] {
      DedupNoLonger(s[..|s| - 1]);
    }
  }

  /** A distinct list sorted by DescendingKey is strictly descending. */
  lemma DistinctSortedIsStrict(distinct: seq<int>, ds: seq<int>)
    requires NoDuplicates(distinct)
    requires multiset(ds) == multiset(distinct) && SortedBy(ds, DescendingKey)
    ensures StrictlyDescending(ds)
  {
    forall i, j | 0 <= i < j < |ds| ensures ds[i] > ds[j] {
      assert KeyLe(DescendingKey(ds[i]), DescendingKey(ds[j]));
      if ds[i] == ds[j] {
        assert multiset{ds[i], ds[j]} <= multiset(ds) by {
          assert ds == ds[..i] + [ds[i]] + ds[i + 1..j] + [ds[j]] + ds[j + 1..];
        }
        AtMostOnce(distinct, ds[i]);
        assert false;
      }
    }
  }

  lemma {:induction false} AtMostOnce<T>(s: seq<T>, x: T)
    requires NoDuplicates(s)
    ensures multiset(s)[x] <= 1
  {
    if s != [] {
      var init := s[..|s| - 1];
      assert s == init + [s[|s| - 1]];
      assert NoDuplicates(init);
      AtMostOnce(init, x);
      if x == s[|s| - 1] {
        assert x !in init;
      }
    }
  }

  // ---------------------------------------------------------------- current streak

  /** A day continues a streak that expects `expected` when it is that day or the day before
      (one missed day is forgiven). */
  predicate Continues(date: int, expected: int) {
    date == expected || date == expected - DayMs
  }

  /** How many days, from the front of the newest-first list, continue the streak. */
  function StreakFrom(ds: seq<int>, expected: int): (n: nat)
    ensures n <= |ds|
  {
    if ds == [] then 0
    else if Continues(ds[0], expected) then 1 + StreakFrom(ds[1..], ds[0] - DayMs)
    else 0
  }

  /** The current-streak loop: count days while each is the expected day or the one before,
      moving the expectation to the day before the counted one; stop at the first other day. */
  method CurrentStreak(sortedDates: seq<int>, today: int) returns (currentStreak: nat)
    ensures currentStreak == StreakFrom(sortedDates, today)
  {
    currentStreak := 0;
    var expectedDate := today;
    var i := 0;
    while i < |sortedDates|
      invariant 0 <= i <= |sortedDates| && currentStreak == i
      invariant StreakFrom(sortedDates, today) == i + StreakFrom(sortedDates[i..], expectedDate)
    {
      var date := sortedDates[i];
      assert sortedDates[i..][1..] == sortedDates[i + 1..];
      if date == expectedDate || date == expectedDate - DayMs {
        currentStreak := currentStreak + 1;
        expectedDate := date - DayMs;
      } else {
        break;
      }
      i := i + 1;
    }
  }

  /** The day a streak of n counted days expects next. */
  function ExpectedAfter(ds: seq<int>, today: int, n: nat): int
    requires n <= |ds|
  {
    if n == 0 then today else ds[n - 1] - DayMs
  }

  /** The current streak is the longest prefix in which the first day is today or yesterday
      and each later day is one or two days before the previous one; the next day, if any,
      breaks that rule. */
  lemma {:induction false} StreakCharacterised(ds: seq<int>, today: int)
    ensures var n := StreakFrom(ds, today);
      (forall i :: 0 <= i < n ==> Continues(ds[i], ExpectedAfter(ds, today, i)))
      && (n < |ds| ==> !Continues(ds[n], ExpectedAfter(ds, today, n)))
  {
    if ds != [] && Continues(ds[0], today) {
      var rest := ds[1..];
      StreakCharacterised(rest, ds[0] - DayMs);
      var n := StreakFrom(ds, today);
      forall i | 0 < i <= n && i <= |ds| ensures ExpectedAfter(ds, today, i) == ExpectedAfter(rest, ds[0] - DayMs, i - 1) {
      }
      forall i | 0 <= i < n ensures Continues(ds[i], ExpectedAfter(ds, today, i)) {
        if i > 0 {
          assert ds[i] == rest[i - 1];
        }
      }
      if n < |ds| {
        assert ds[n] == rest[n - 1];
      }
    }
  }

  /** Consequences the statistics rely on: no more days than there are, nothing when there
      are no days or the newest day is neither today nor yesterday, and gaps of one or two
      days between counted days. */
  lemma CurrentStreakFacts(ds: seq<int>, today: int)
    ensures StreakFrom(ds, today) <= |ds|
    ensures ds == [] ==> StreakFrom(ds, today) == 0
    ensures ds != [] && (ds[0] > today || ds[0] < today - DayMs) ==> StreakFrom(ds, today) == 0
    ensures forall i :: 0 < i < StreakFrom(ds, today) ==> ds[i - 1] - ds[i] == DayMs || ds[i - 1] - ds[i] == 2 * DayMs
  {
    StreakCharacterised(ds, today);
  }

  /** n consecutive days back from `start`. */
  function DaysBack(start: int, n: nat): (r: seq<int>)
    ensures |r| == n
    ensures forall i :: 0 <= i < n ==> r[i] == start - i * DayMs
    decreases n
  {
    if n == 0 then [] else [start] + DaysBack(start - DayMs, n - 1)
  }

  /** Activity on each of the last n days, ending today or yesterday, is a streak of n. */
  lemma {:induction false} ConsecutiveDaysStreak(expected: int, n: nat, endsYesterday: bool)
    ensures StreakFrom(DaysBack(if endsYesterday then expected - DayMs else expected, n), expected) == n
    decreases n
  {
    var start := if endsYesterday then expected - DayMs else expected;
    if n > 0 {
      ConsecutiveDaysStreak(start - DayMs, n - 1, false);
      assert DaysBack(start, n)[1..] == DaysBack(start - DayMs, n - 1);
    }
  }

  // ---------------------------------------------------------------- longest streak

  /** The longest-streak loop as the app writes it: over the newest-first list it extends a
      run only when a day is one day AFTER the previous one, which never happens. */
  method LongestStreakAsWritten(sortedDates: seq<int>) returns (longestStreak: int)
    ensures StrictlyDescending(sortedDates) ==> longestStreak == 1
    ensures longestStreak >= 1
  {
    longestStreak := 1;
    var tempStreak := 1;
    var i := 1;
    while i < |sortedDates|
      invariant 1 <= i && 1 <= tempStreak <= longestStreak
      invariant StrictlyDescending(sortedDates) ==> longestStreak == 1 && tempStreak == 1
    {
      var diff := sortedDates[i] - sortedDates[i - 1];
      if diff == DayMs {
        tempStreak := tempStreak + 1;
        longestStreak := if longestStreak >= tempStreak then longestStreak else tempStreak;
      } else {
        tempStreak := 1;
      }
      i := i + 1;
    }
  }

  /** Days ds[i..j] are consecutive: each one day before the previous. */
  predicate Consecutive(ds: seq<int>, i: nat, j: nat)
    requires i <= j < |ds|
  {
    forall k :: i < k <= j ==> ds[k - 1] - ds[k] == DayMs
  }

  /** Length of the run of consecutive days that ends at index i. */
  function RunEndingAt(ds: seq<int>, i: nat): (n: nat)
    requires i < |ds|
    ensures 1 <= n <= i + 1
  {
    if i == 0 then 1
    else if ds[i - 1] - ds[i] == DayMs then RunEndingAt(ds, i - 1) + 1
    else 1
  }

  /** The longest run among the runs ending before index n; 0 when n is 0. */
  function LongestRunBefore(ds: seq<int>, n: nat): (m: nat)
    requires n <= |ds|
    ensures m <= n
    ensures n > 0 ==> m >= 1
  {
    if n == 0 then 0
    else
      var prev := LongestRunBefore(ds, n - 1);
      var run := RunEndingAt(ds, n - 1);
      if prev >= run then prev else run
  }

  /** The length of the longest run of consecutive days, 0 for no days. */
  function LongestRun(ds: seq<int>): nat {
    LongestRunBefore(ds, |ds|)
  }

  /** The longest-streak loop as intended: a run continues when a day is exactly one day
      before the previous one in the newest-first list, and no days make no streak. */
  method LongestStreak(sortedDates: seq<int>) returns (longestStreak: nat)
    ensures longestStreak == LongestRun(sortedDates)
  {
    if |sortedDates| == 0 {
      return 0;
    }
    longestStreak := 1;
    var tempStreak := 1;
    var i := 1;
    while i < |sortedDates|
      invariant 1 <= i <= |sortedDates|
      invariant tempStreak == RunEndingAt(sortedDates, i - 1)
      invariant longestStreak == LongestRunBefore(sortedDates, i)
    {
      if sortedDates[i - 1] - sortedDates[i] == DayMs {
        tempStreak := tempStreak + 1;
      } else {
        tempStreak := 1;
      }
      longestStreak := if longestStreak >= tempStreak then longestStreak else tempStreak;
      i := i + 1;
    }
  }

  lemma {:induction false} RunCoversConsecutive(ds: seq<int>, i: nat, j: nat)
    requires i <= j < |ds| && Consecutive(ds, i, j)
    ensures RunEndingAt(ds, j) >= j - i + 1
    decreases j
  {
    if j > i {
      RunCoversConsecutive(ds, i, j - 1);
    }
  }

  lemma {:induction false} RunIsConsecutive(ds: seq<int>, j: nat)
    requires j < |ds|
    ensures Consecutive(ds, j + 1 - RunEndingAt(ds, j), j)
  {
    if j > 0 && ds[j - 1] - ds[j] == DayMs {
      RunIsConsecutive(ds, j - 1);
    }
  }

  lemma {:induction false} LongestRunBeforeBounds(ds: seq<int>, n: nat)
    requires n <= |ds|
    ensures forall j :: 0 <= j < n ==> RunEndingAt(ds, j) <= LongestRunBefore(ds, n)
    ensures n > 0 ==> exists j :: 0 <= j < n && RunEndingAt(ds, j) == LongestRunBefore(ds, n)
  {
    if n > 0 {
      LongestRunBeforeBounds(ds, n - 1);
      if LongestRunBefore(ds, n - 1) >= RunEndingAt(ds, n - 1) {
        var j :| 0 <= j < n - 1 && RunEndingAt(ds, j) == LongestRunBefore(ds, n - 1);
        assert RunEndingAt(ds, j) == LongestRunBefore(ds, n);
      } else {
        assert RunEndingAt(ds, n - 1) == LongestRunBefore(ds, n);
      }
    }
  }

  /** The intended meaning: no run of consecutive days is longer than LongestRun, and some
      run is exactly that long whenever there is at least one day. */
  lemma LongestRunIsMaximum(ds: seq<int>)
    ensures forall i, j :: 0 <= i <= j < |ds| && Consecutive(ds, i, j) ==> j - i + 1 <= LongestRun(ds)
    ensures |ds| > 0 ==> exists i, j :: 0 <= i <= j < |ds| && Consecutive(ds, i, j) && j - i + 1 == LongestRun(ds)
  {
    LongestRunBeforeBounds(ds, |ds|);
    forall i, j | 0 <= i <= j < |ds| && Consecutive(ds, i, j) ensures j - i + 1 <= LongestRun(ds) {
      RunCoversConsecutive(ds, i, j);
    }
    if |ds| > 0 {
      var j :| 0 <= j < |ds| && RunEndingAt(ds, j) == LongestRun(ds);
      RunIsConsecutive(ds, j);
      var i := j + 1 - RunEndingAt(ds, j);
      assert Consecutive(ds, i, j) && j - i + 1 == LongestRun(ds);
    }
  }

  /** The as-written loop reports 1 for every list of dates, even for none, while the
      intended value differs, e.g. 3 for days 4, 5, 8, 9 and 10 days back and 0 for none. */
  method LongestStreakDiscrepancy(dates: seq<int>) returns (asWritten: int, intended: nat)
    ensures asWritten == 1
    ensures intended == LongestRun(SortedDays(dates))
  {
    asWritten := LongestStreakAsWritten(SortedDays(dates));
    intended := LongestStreak(SortedDays(dates));
  }

  /** The concrete input of the finding: completions 4, 5, 8, 9 and 10 days before day 10. */
  lemma LongestRunExample()
    ensures LongestRun([6 * DayMs, 5 * DayMs, 2 * DayMs, DayMs, 0]) == 3
    ensures LongestRun([]) == 0
  {
    var ds := [6 * DayMs, 5 * DayMs, 2 * DayMs, DayMs, 0];
    assert RunEndingAt(ds, 0) == 1;
    assert RunEndingAt(ds, 1) == 2;
    assert RunEndingAt(ds, 2) == 1;
    assert RunEndingAt(ds, 3) == 2;
    assert RunEndingAt(ds, 4) == 3;
    assert LongestRunBefore(ds, 2) == 2;
    assert LongestRunBefore(ds, 4) == 2;
    assert LongestRunBefore(ds, 5) == 3;
  }
}
