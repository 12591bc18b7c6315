/** Instants as integer microseconds since 1970-01-01T00:00:00 UTC, the
    resolution of Python's `datetime`. Calendar days are counted the same
    way: day `d` starts at `d * MicrosPerDay`. Time zones are fixed UTC
    offsets given in seconds. */
module Clock {

  const MicrosPerSecond: int := 1_000_000
  const SecondsPerHour: int := 3600
  const MicrosPerHour: int := SecondsPerHour * MicrosPerSecond
  const MicrosPerDay: int := 24 * MicrosPerHour

  /** A half-open or closed span of instants, as the API's `timeMin` and
      `timeMax` bounds. */
  datatype Window = Window(timeMin: int, timeMax: int)

  /** The day number holding instant `t` (floor division, so instants
      before 1970 fall on negative days). */
  function DayOf(t: int): int
  {
    t / MicrosPerDay
  }

  /** `t.replace(hour=0, minute=0, second=0, microsecond=0)`. */
  function Midnight(t: int): (m: int)
    ensures m <= t < m + MicrosPerDay
    ensures m % MicrosPerDay == 0
    ensures DayOf(m) == DayOf(t)
  {
    DayOf(t) * MicrosPerDay
  }

  /** `date.weekday()`: Monday is 0. Day 0, 1970-01-01, was a Thursday. */
  function Weekday(day: int): (w: int)
    ensures 0 <= w < 7
  {
    (day + 3) % 7
  }

  /** The next day has the next weekday. */
  lemma WeekdayNext(day: int)
    ensures Weekday(day + 1) == (Weekday(day) + 1) % 7
  {
  }

  /** Subtracting whole days keeps the time of day. */
  lemma MidnightShift(t: int, days: int)
    ensures Midnight(t - days * MicrosPerDay) == Midnight(t) - days * MicrosPerDay
  {
  }

  /** An instant falls on day `d` exactly when it lies in that day's
      span. */
  lemma DayOfBounds(t: int, d: int)
    ensures DayOf(t) == d <==> d * MicrosPerDay <= t < d * MicrosPerDay + MicrosPerDay
  {
  }

  /** One day later is the next day. */
  lemma DayOfNext(t: int)
    ensures DayOf(t + MicrosPerDay) == DayOf(t) + 1
  {
  }
}
