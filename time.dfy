/**
 * Instants and calendar days. An instant is an integer number of milliseconds since
 * 1970-01-01T00:00:00Z (what `new Date(created_at)` holds). The viewer's local time is UTC shifted
 * by a fixed offset; a local day is what `setHours(0, 0, 0, 0)` and `getDay()` see, a UTC day is
 * what `toISOString().split('T')[0]` names. Days are numbered from the epoch day 0.
 */
module Time {
  const MinuteMs: int := 60_000
  const HourMs: int := 3_600_000
  const DayMs: int := 86_400_000

  /** The current instant (`new Date()`) and the local-time offset from UTC, both in ms. */
  datatype Clock = Clock(now: int, offset: int)

  /** The UTC day an instant falls on (Dafny's `/` by a positive divisor rounds down). */
  function UtcDay(t: int): int
  {
    t / DayMs
  }

  /** The local day an instant falls on. */
  function LocalDay(c: Clock, t: int): int
  {
    (t + c.offset) / DayMs
  }

  /** The instant of local midnight that starts day `d`. */
  function LocalMidnight(c: Clock, d: int): int
  {
    d * DayMs - c.offset
  }

  /** The local day of the clock's current instant. */
  function Today(c: Clock): int
  {
    LocalDay(c, c.now)
  }

  /** Day of the week, 0 = Sunday .. 6 = Saturday; day 0 (1970-01-01) was a Thursday. */
  function Weekday(d: int): (w: int)
    ensures 0 <= w < 7
  {
    (d + 4) % 7
  }

  /** Consecutive days have consecutive weekdays, wrapping from Saturday to Sunday. */
  lemma NextWeekday(d: int)
    ensures Weekday(d + 1) == (Weekday(d) + 1) % 7
  {
  }

  /** Local day `d` runs from its midnight to one millisecond before the next midnight. */
  lemma LocalDayBounds(c: Clock, t: int)
    ensures LocalMidnight(c, LocalDay(c, t)) <= t < LocalMidnight(c, LocalDay(c, t) + 1)
  {
  }

  /** An instant lies between a day's start and its last millisecond exactly when it falls on that day. */
  lemma WithinDayIff(c: Clock, t: int, d: int)
    ensures LocalMidnight(c, d) <= t <= LocalMidnight(c, d) + DayMs - 1 <==> LocalDay(c, t) == d
  {
    LocalDayBounds(c, t);
  }

  /** An instant is at or after the start of day `d` exactly when it falls on day `d` or later. */
  lemma AtOrAfterMidnightIff(c: Clock, t: int, d: int)
    ensures t >= LocalMidnight(c, d) <==> LocalDay(c, t) >= d
  {
    LocalDayBounds(c, t);
  }

  /** Moving an instant back `k` whole days moves its local and its UTC day back by `k`. */
  lemma ShiftDays(c: Clock, t: int, k: int)
    ensures LocalDay(c, t - k * DayMs) == LocalDay(c, t) - k
    ensures UtcDay(t - k * DayMs) == UtcDay(t) - k
  {
    LocalDayBounds(c, t);
    LocalDayBounds(c, t - k * DayMs);
  }
}
