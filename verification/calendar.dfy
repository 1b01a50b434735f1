/** Calendar accessors on timestamps.

    A timestamp is a count of seconds since 1970-01-01 00:00:00 on a naive
    (timezone-free) clock, which is how the analyzers treat Python's
    `datetime` values.  The accessors below stand in for the standard
    library's `.hour`, `.minute`, `.time()`, `.weekday()`, `.month` and
    `.date()`; the analyzers only rely on their ranges. */
module Calendar {

  type Timestamp = int

  const SecondsPerMinute: int := 60
  const SecondsPerHour: int := 3600
  const SecondsPerDay: int := 86400

  /** Days since 1970-01-01 (floor division, so earlier instants get negative days). */
  function DayNumber(t: Timestamp): int {
    t / SecondsPerDay
  }

  /** Seconds since midnight: the value `datetime.time()` compares by. */
  function SecondOfDay(t: Timestamp): (r: int)
    ensures 0 <= r < SecondsPerDay
    ensures DayNumber(t) * SecondsPerDay + r == t
  {
    t % SecondsPerDay
  }

  function Hour(t: Timestamp): (h: int)
    ensures 0 <= h < 24
    ensures h * SecondsPerHour <= SecondOfDay(t) < (h + 1) * SecondsPerHour
  {
    SecondOfDay(t) / SecondsPerHour
  }

  function Minute(t: Timestamp): (m: int)
    ensures 0 <= m < 60
  {
    (SecondOfDay(t) / SecondsPerMinute) % 60
  }

  /** Monday is 0 and Sunday is 6; 1970-01-01 was a Thursday. */
  function Weekday(t: Timestamp): (d: int)
    ensures 0 <= d < 7
  {
    (DayNumber(t) + 3) % 7
  }

  /** The calendar date, identified by its day number. */
  function Date(t: Timestamp): int {
    DayNumber(t)
  }

  /** Month 1..12 in the proleptic Gregorian calendar.  Days are counted in
      400-year eras starting on 0000-03-01, so that February is the last
      month of each shifted year. */
  function Month(t: Timestamp): (m: int)
    ensures 1 <= m <= 12
  {
    var z := DayNumber(t) + 719468;
    var dayOfEra := z % 146097;
    var yearOfEra := (dayOfEra - dayOfEra / 1460 + dayOfEra / 36524 - dayOfEra / 146096) / 365;
    var dayOfYear := dayOfEra - (365 * yearOfEra + yearOfEra / 4 - yearOfEra / 100);
    MonthOfShiftedDay(dayOfYear)
  }

  /** Month of a day counted from March 1st (0 is March 1st, 365 is February 29th). */
  function MonthOfShiftedDay(d: int): (m: int)
    ensures 1 <= m <= 12
  {
    if d < 31 then 3
    else if d < 61 then 4
    else if d < 92 then 5
    else if d < 122 then 6
    else if d < 153 then 7
    else if d < 184 then 8
    else if d < 214 then 9
    else if d < 245 then 10
    else if d < 275 then 11
    else if d < 306 then 12
    else if d < 337 then 1
    else 2
  }
}
