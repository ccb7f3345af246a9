/** Moscow wall time: epoch seconds shifted by a fixed three hours, days counted from 1970-01-01. */
module Calendar {

  const OFFSET := 10800
  const DAY := 86400

  function Day(ts: int): int { (ts + OFFSET) / DAY }

  /** Epoch second of a local day and a local time of day given in minutes. */
  function At(day: int, minute: int): int { day * DAY + minute * 60 - OFFSET }

  function MinuteOfDay(ts: int): int { ((ts + OFFSET) % DAY) / 60 }

  /** Monday is 0; the epoch fell on a Thursday. */
  function Weekday(day: int): int { (day + 3) % 7 }

  predicate Weekend(day: int) { Weekday(day) >= 5 }

  lemma AtInverse(day: int, minute: int)
    requires 0 <= minute < 1440
    ensures Day(At(day, minute)) == day && MinuteOfDay(At(day, minute)) == minute
  {
    assert At(day, minute) + OFFSET == day * DAY + minute * 60;
  }

  lemma DayMonotone(a: int, b: int)
    requires a <= b
    ensures Day(a) <= Day(b)
  {
  }
}
