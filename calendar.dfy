/** The proleptic Gregorian calendar in UTC as Go's `time` package computes it:
    a civil date is numbered by the days since 1970-01-01, instants are Unix
    nanoseconds, and `time.Date` normalises an out-of-range month or day. */
module Calendar {

  const NsPerSecond: int := 1_000_000_000
  const SecondsPerDay: int := 86400
  const NsPerDay: int := SecondsPerDay * NsPerSecond

  predicate IsLeapYear(y: int) {
    y % 4 == 0 && (y % 100 != 0 || y % 400 == 0)
  }

  function DaysInMonth(y: int, m: int): (n: int)
    requires 1 <= m <= 12
    ensures 28 <= n <= 31
  {
    if m == 2 then (if IsLeapYear(y) then 29 else 28)
    else if m == 4 || m == 6 || m == 9 || m == 11 then 30
    else 31
  }

  /** Days of year `y` before the first of month `m`. */
  function DaysBeforeMonth(y: int, m: int): int
    requires 1 <= m <= 12
  {
    var cumulative := [0, 31, 59, 90, 120, 151, 181, 212, 243, 273, 304, 334];
    cumulative[m - 1] + (if m > 2 && IsLeapYear(y) then 1 else 0)
  }

  /** A count of leap years that grows by one exactly after each leap year
      (`/` is floor division for a positive divisor). */
  function LeapsBefore(y: int): int {
    (y - 1) / 4 - (y - 1) / 100 + (y - 1) / 400
  }

  /** Day number of January 1 of year `y`. */
  function DaysBeforeYear(y: int): int {
    365 * (y - 1970) + LeapsBefore(y) - LeapsBefore(1970)
  }

  /** Day number of a civil date; a day outside the month counts on from its first,
      as `time.Date` normalises it. */
  function DayNumber(y: int, m: int, d: int): int
    requires 1 <= m <= 12
  {
    DaysBeforeYear(y) + DaysBeforeMonth(y, m) + d - 1
  }

  /** `time.Date`'s normalisation of a month outside 1..12 into the neighbouring years. */
  function NormalizeMonth(y: int, m: int): (r: (int, int))
    ensures 1 <= r.1 <= 12
    ensures 12 * r.0 + r.1 == 12 * y + m
  {
    (y + (m - 1) / 12, (m - 1) % 12 + 1)
  }

  /** Day number of the first day of month `m` of year `y`, after normalisation. */
  function MonthStartDay(y: int, m: int): int {
    var (ny, nm) := NormalizeMonth(y, m);
    DayNumber(ny, nm, 1)
  }

  /** `time.Weekday` of a day number: 0 is Sunday; 1970-01-01 was a Thursday. */
  function Weekday(day: int): (w: int)
    ensures 0 <= w < 7
  {
    (day + 4) % 7
  }

  const Monday: int := 1

  /** Floor division by a positive constant steps by one exactly at its multiples. */
  lemma QuarterStep(y: int)
    ensures y / 4 - (y - 1) / 4 == if y % 4 == 0 then 1 else 0
  {
  }

  lemma CenturyStep(y: int)
    ensures y / 100 - (y - 1) / 100 == if y % 100 == 0 then 1 else 0
  {
  }

  lemma QuadricentennialStep(y: int)
    ensures y / 400 - (y - 1) / 400 == if y % 400 == 0 then 1 else 0
  {
  }

  /** Multiples of 400 are multiples of 100, and those are multiples of 4. */
  lemma MultipleOf400(y: int)
    requires y % 400 == 0
    ensures y % 100 == 0
  {
    var k := y / 400;
    assert y == 100 * (4 * k);
  }

  lemma MultipleOf100(y: int)
    requires y % 100 == 0
    ensures y % 4 == 0
  {
    var k := y / 100;
    assert y == 4 * (25 * k);
  }

  lemma LeapsStep(y: int)
    ensures LeapsBefore(y + 1) - LeapsBefore(y) == if IsLeapYear(y) then 1 else 0
  {
    QuarterStep(y);
    CenturyStep(y);
    QuadricentennialStep(y);
    if y % 400 == 0 {
      MultipleOf400(y);
    }
    if y % 100 == 0 {
      MultipleOf100(y);
    }
  }

  /** A year has 365 days, 366 if it is a leap year. */
  lemma YearLength(y: int)
    ensures DaysBeforeYear(y + 1) - DaysBeforeYear(y) == if IsLeapYear(y) then 366 else 365
  {
    LeapsStep(y);
  }

  lemma DayNumberEpoch()
    ensures DayNumber(1970, 1, 1) == 0
  {
  }

  /** The first of the next month follows the last day of this month: consecutive
      month starts are `DaysInMonth` apart, also across a year boundary and for
      months `time.Date` normalises. */
  lemma MonthLength(y: int, m: int)
    ensures var (ny, nm) := NormalizeMonth(y, m);
            MonthStartDay(y, m + 1) - MonthStartDay(y, m) == DaysInMonth(ny, nm)
  {
    var (ny, nm) := NormalizeMonth(y, m);
    var (ny', nm') := NormalizeMonth(y, m + 1);
    if nm == 12 {
      assert ny' == ny + 1 && nm' == 1;
      YearLength(ny);
    } else {
      assert ny' == ny && nm' == nm + 1;
    }
  }

  /** Within one year, day numbers grow with the month. */
  lemma DayNumberMonotone(y: int, m: int, d: int, m': int, d': int)
    requires 1 <= m <= m' <= 12
    requires m < m' ==> 1 <= d <= DaysInMonth(y, m)
    requires m == m' ==> d <= d'
    requires 1 <= d'
    ensures DayNumber(y, m, d) <= DayNumber(y, m', d')
  {
  }
}
