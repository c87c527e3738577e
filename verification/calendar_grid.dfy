/** The month grid of the calendar screen: a leading run of blank cells for the weekdays
    before the 1st, one cell per day, and blank cells to the end of the last week row.
    The weekday of the 1st (0 = Sunday) and the length of the month come from the platform
    calendar and are inputs here. Also the day comparison and the Add Event guard. */
module CalendarGrid {
  import opened Wrappers
  import opened Text
  import opened GoalModel

  /** Week rows needed for `firstDayOfWeek + daysInMonth` cells, rounded up. */
  function Rows(firstDayOfWeek: nat, daysInMonth: nat): nat {
    (firstDayOfWeek + daysInMonth + 6) / 7
  }

  /** The day shown in cell `row * 7 + col`, or None for a blank cell. */
  function DayAt(cell: nat, firstDayOfWeek: nat, daysInMonth: nat): Option<nat> {
    var day := cell - firstDayOfWeek + 1;
    if 1 <= day <= daysInMonth then Some(day) else None
  }

  /** The cells in row-major order, as the nested row and column loops emit them. */
  function Grid(firstDayOfWeek: nat, daysInMonth: nat): (g: seq<Option<nat>>)
    ensures |g| == Rows(firstDayOfWeek, daysInMonth) * 7
  {
    seq(Rows(firstDayOfWeek, daysInMonth) * 7, (c: int) requires 0 <= c => DayAt(c, firstDayOfWeek, daysInMonth))
  }

  /** The rows hold every cell and the last row is not empty: rows·7 ≥ cells > (rows−1)·7. */
  lemma RowsBounds(firstDayOfWeek: nat, daysInMonth: nat)
    ensures var rows := Rows(firstDayOfWeek, daysInMonth);
      rows * 7 >= firstDayOfWeek + daysInMonth > (rows - 1) * 7
  {
    var total := firstDayOfWeek + daysInMonth;
    var rows := Rows(firstDayOfWeek, daysInMonth);
    assert (total + 6) == rows * 7 + (total + 6) % 7;
  }

  /** A month starting on any weekday and at most 31 days long fits in six rows;
      a month of at least 28 days needs at least four. */
  lemma RowsRange(firstDayOfWeek: nat, daysInMonth: nat)
    requires firstDayOfWeek <= 6 && daysInMonth <= 31
    ensures Rows(firstDayOfWeek, daysInMonth) <= 6
    ensures daysInMonth >= 28 ==> Rows(firstDayOfWeek, daysInMonth) >= 4
  {
    RowsBounds(firstDayOfWeek, daysInMonth);
  }

  /** Every day of the month appears in exactly one cell, the one at `firstDayOfWeek + day - 1`. */
  lemma EachDayInOneCell(firstDayOfWeek: nat, daysInMonth: nat, day: nat)
    requires 1 <= day <= daysInMonth
    ensures var g := Grid(firstDayOfWeek, daysInMonth);
      firstDayOfWeek + day - 1 < |g| && g[firstDayOfWeek + day - 1] == Some(day)
      && forall c :: 0 <= c < |g| && g[c] == Some(day) ==> c == firstDayOfWeek + day - 1
  {
    RowsBounds(firstDayOfWeek, daysInMonth);
  }

  /** Cells before the 1st and after the last day are blank, and the others are not. */
  lemma BlankCells(firstDayOfWeek: nat, daysInMonth: nat, c: nat)
    requires c < |Grid(firstDayOfWeek, daysInMonth)|
    ensures Grid(firstDayOfWeek, daysInMonth)[c] == None
        <==> c < firstDayOfWeek || c >= firstDayOfWeek + daysInMonth
  {
  }

  /** A day cell is highlighted as today when the shown month is the current one and the
      day number is today's. */
  predicate IsToday(day: nat, shownYear: int, shownMonth: int, todayYear: int, todayMonth: int, todayDay: int) {
    var isCurrentMonth := shownYear == todayYear && shownMonth == todayMonth;
    isCurrentMonth && day == todayDay
  }

  /** Only the current month has a today cell, and it has at most one. */
  lemma AtMostOneToday(firstDayOfWeek: nat, daysInMonth: nat, shownYear: int, shownMonth: int,
                       todayYear: int, todayMonth: int, todayDay: int)
    ensures var g := Grid(firstDayOfWeek, daysInMonth);
      forall c1, c2 :: 0 <= c1 < |g| && 0 <= c2 < |g| && g[c1].Some? && g[c2].Some?
        && IsToday(g[c1].value, shownYear, shownMonth, todayYear, todayMonth, todayDay)
        && IsToday(g[c2].value, shownYear, shownMonth, todayYear, todayMonth, todayDay)
        ==> c1 == c2 && shownYear == todayYear && shownMonth == todayMonth
  {
  }

  /** Two instants are on the same day when their calendar year and day of year agree.
      The platform calendar is given as the two field functions. */
  predicate IsSameDay(date1: int, date2: int, yearOf: int -> int, dayOfYear: int -> int) {
    yearOf(date1) == yearOf(date2) && dayOfYear(date1) == dayOfYear(date2)
  }

  /** Same-day is an equivalence: reflexive, symmetric and transitive. */
  lemma SameDayEquivalence(a: int, b: int, c: int, yearOf: int -> int, dayOfYear: int -> int)
    ensures IsSameDay(a, a, yearOf, dayOfYear)
    ensures IsSameDay(a, b, yearOf, dayOfYear) ==> IsSameDay(b, a, yearOf, dayOfYear)
    ensures IsSameDay(a, b, yearOf, dayOfYear) && IsSameDay(b, c, yearOf, dayOfYear)
            ==> IsSameDay(a, c, yearOf, dayOfYear)
  {
  }

  /** The Add Event button: enabled, and creating an event, only for a non-blank title.
      The event takes the selected date and colour and the record's other defaults. */
  function AddEvent(title: string, description: string, selectedDate: int, selectedColor: int,
                    newId: string, now: int): (r: Option<CalendarEvent>)
    ensures r.Some? <==> !IsBlank(title)
    ensures r.Some? ==> r.value.title == title && r.value.description == description
                        && r.value.date == selectedDate && r.value.color == selectedColor
                        && r.value.id == newId && r.value.linkedGoalId == None
  {
    if !IsBlank(title) then Some(NewCalendarEvent(newId, title, description, selectedDate, selectedColor, now))
    else None
  }
}
