/**
 * Local wall-clock time as the programs read it from a JavaScript `Date`:
 * a calendar-day number (the day before `d` is `d - 1`, across month and year
 * boundaries alike) and the time of day.
 */
module Clock {

  type Hour = h: int | 0 <= h < 24
  type Minute = m: int | 0 <= m < 60
  type Second = s: int | 0 <= s < 60

  datatype DateTime = DateTime(day: int, hour: Hour, minute: Minute, second: Second)
}
