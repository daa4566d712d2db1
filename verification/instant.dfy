/** Instants as whole microseconds since 1970-01-01T00:00:00Z, the resolution
    of Python's `datetime`. Aware datetimes with different tzinfo objects
    compare by the instant they denote, as the filter's bounds in UTC do
    against the parsed starts. Dafny's `/` and `%` by a
    positive constant round toward minus infinity, which is how `datetime`
    splits an instant into date and time-of-day fields, before 1970 as well. */
module Instant {
  import Civil

  const MicrosPerMinute: int := 60_000_000
  const MicrosPerDay: int := 86_400_000_000
  const MinutesPerDay: int := 1440

  /** An inclusive interval of instants. */
  datatype DaySpan = DaySpan(start: int, end: int)

  predicate Contains(w: DaySpan, t: int) {
    w.start <= t <= w.end
  }

  /** A whole UTC calendar day: from 00:00:00.000000 to 23:59:59.999999. */
  predicate IsUtcDay(w: DaySpan) {
    w.start % MicrosPerDay == 0 && w.end == w.start + MicrosPerDay - 1
  }

  /** The UTC day containing `now`: `now` with its time fields replaced by
      midnight, and by 23:59:59.999999. */
  function Today(now: int): (w: DaySpan)
    ensures IsUtcDay(w)
    ensures Contains(w, now)
  {
    var start := now - now % MicrosPerDay;
    DaySpan(start, start + MicrosPerDay - 1)
  }

  /** There is exactly one UTC day around an instant. */
  lemma TodayUnique(now: int, w: DaySpan)
    requires IsUtcDay(w)
    requires Contains(w, now)
    ensures w == Today(now)
  {
    var k := w.start / MicrosPerDay;
    assert w.start == k * MicrosPerDay;
    assert now / MicrosPerDay == k;
  }

  /** Every instant of today has the same today. */
  lemma TodayConstant(now: int, t: int)
    requires Contains(Today(now), t)
    ensures Today(t) == Today(now)
  {
    TodayUnique(t, Today(now));
  }

  /** The UTC calendar date of `now`, which `strftime('%d/%m/%Y')` prints. */
  function UtcDate(now: int): (d: Civil.Date)
    ensures Civil.ValidDate(d)
    ensures Civil.DayNumber(d) * MicrosPerDay == Today(now).start
  {
    Civil.DateOfDay(now / MicrosPerDay)
  }

  /** Instants a `datetime` can hold: years 1 through 9999. */
  predicate InDatetimeRange(t: int) {
    1 <= UtcDate(t).year <= 9999
  }

  /** Minutes since local midnight of the wall-clock time `instant` shows
      at UTC offset `offset` (microseconds east of UTC). */
  function LocalMinuteOfDay(instant: int, offset: int): (m: int)
    ensures 0 <= m < MinutesPerDay
    ensures Today(instant + offset).start + m * MicrosPerMinute <= instant + offset
    ensures instant + offset < Today(instant + offset).start + (m + 1) * MicrosPerMinute
  {
    ((instant + offset) % MicrosPerDay) / MicrosPerMinute
  }

  /** A wall-clock time `minute` minutes after some midnight reads as that
      minute of the day. */
  lemma LocalMinuteAt(instant: int, offset: int, day: int, minute: int)
    requires 0 <= minute < MinutesPerDay
    requires instant + offset == day * MicrosPerDay + minute * MicrosPerMinute
    ensures LocalMinuteOfDay(instant, offset) == minute
  {
    assert (instant + offset) % MicrosPerDay == minute * MicrosPerMinute;
  }
}
