/** Day arithmetic shared by every date-bucketed query. Timestamps are epoch milliseconds. */
module TimeUtil {

  /** 24 * 60 * 60 * 1000 */
  const DayMs: int := 86400000
  const HourMs: int := 3600000

  /** Long.MAX_VALUE, the sort key standing for "no date" so that undated items sort last. */
  const LongMax: int := 0x7FFF_FFFF_FFFF_FFFF

  /** Start of the day containing t. The local time zone and DST are not modelled: days are
      fixed 24-hour buckets aligned to the epoch. */
  function StartOfDay(t: int): (d: int)
    ensures d <= t < d + DayMs
    ensures d % DayMs == 0
  {
    t - t % DayMs
  }

  /** The inclusive bucket `[dayStart, dayStart + DayMs - 1]` used by every "for date" query. */
  predicate InDay(t: int, date: int) {
    var dayStart := StartOfDay(date);
    dayStart <= t <= dayStart + DayMs - 1
  }

  lemma StartOfDayIdempotent(t: int)
    ensures StartOfDay(StartOfDay(t)) == StartOfDay(t)
  {
    var d := StartOfDay(t);
    assert d % DayMs == 0;
  }

  /** Any multiple of a day is its own day start. */
  lemma StartOfAlignedDay(d: int)
    requires d % DayMs == 0
    ensures StartOfDay(d) == d
  {
  }

  /** The bucket of `date` is exactly the set of timestamps that share its day start. */
  lemma InDayIffSameDay(t: int, date: int)
    ensures InDay(t, date) <==> StartOfDay(t) == StartOfDay(date)
  {
    var a, b := StartOfDay(t), StartOfDay(date);
    if InDay(t, date) {
      assert b <= t < b + DayMs;
      DayStartUnique(t, b);
    }
  }

  /** The only multiple of a day within `(t - DayMs, t]` is StartOfDay(t). */
  lemma DayStartUnique(t: int, d: int)
    requires d % DayMs == 0 && d <= t < d + DayMs
    ensures d == StartOfDay(t)
  {
    var a := StartOfDay(t);
    MultipleBetween(d / DayMs, a / DayMs);
  }

  /** Two distinct multiples of a day are at least a day apart. */
  lemma MultipleBetween(q1: int, q2: int)
    ensures q1 < q2 ==> q1 * DayMs + DayMs <= q2 * DayMs
    ensures q2 < q1 ==> q2 * DayMs + DayMs <= q1 * DayMs
  {
  }

  /** Against a day boundary `a`, a timestamp and its day start fall on the same side. */
  lemma BeforeBoundary(t: int, a: int)
    requires a % DayMs == 0
    ensures t < a <==> StartOfDay(t) < a
  {
    var d := StartOfDay(t);
    MultipleBetween(d / DayMs, a / DayMs);
  }

  /** A timestamp lies in the day starting at the boundary `a` exactly when `a` is its day start. */
  lemma InDayOfBoundary(t: int, a: int)
    requires a % DayMs == 0
    ensures a <= t < a + DayMs <==> StartOfDay(t) == a
  {
    if a <= t < a + DayMs {
      DayStartUnique(t, a);
    }
  }
}
