/** `GetStatistics`: the start of the current day, ISO week (from Monday), month or
    year in UTC, the repository query over `[start, now]`, and the fix-up of the
    result's period and average. The clock reading and the repository are parameters. */
module Statistics {
  import opened Base
  import opened Calendar

  /** A period name other than the four the service knows. */
  type UnknownPeriodName = s: string | s != "day" && s != "week" && s != "month" && s != "year" witness ""

  /** `models.StatisticsPeriod`, a string type: the four named periods, or any other
      string, which the service rejects. */
  datatype StatisticsPeriod = PeriodDay | PeriodWeek | PeriodMonth | PeriodYear | Unrecognized(raw: UnknownPeriodName)

  /** The string a period stands for. */
  function PeriodName(p: StatisticsPeriod): string {
    match p
    case PeriodDay => "day"
    case PeriodWeek => "week"
    case PeriodMonth => "month"
    case PeriodYear => "year"
    case Unrecognized(raw) => raw
  }

  /** The conversion `models.StatisticsPeriod(periodStr)` of a query string. */
  function ParsePeriod(raw: string): (p: StatisticsPeriod)
    ensures PeriodName(p) == raw
    ensures p.Unrecognized? <==> raw != "day" && raw != "week" && raw != "month" && raw != "year"
  {
    if raw == "day" then PeriodDay
    else if raw == "week" then PeriodWeek
    else if raw == "month" then PeriodMonth
    else if raw == "year" then PeriodYear
    else Unrecognized(raw)
  }

  /** A period and its name determine each other. */
  lemma ParsePeriodName(p: StatisticsPeriod)
    ensures ParsePeriod(PeriodName(p)) == p
  {
  }

  /** A civil UTC date and the nanoseconds since its midnight. */
  datatype DateTime = DateTime(year: int, month: int, day: int, nanos: int)

  predicate ValidDateTime(t: DateTime) {
    1 <= t.month <= 12 && 1 <= t.day <= DaysInMonth(t.year, t.month) && 0 <= t.nanos < NsPerDay
  }

  /** A reading of `time.Now().UTC()`. */
  type UtcTime = t: DateTime | ValidDateTime(t) witness DateTime(1970, 1, 1, 0)

  function Today(t: UtcTime): int {
    DayNumber(t.year, t.month, t.day)
  }

  /** The instant, in Unix nanoseconds. */
  function Instant(t: UtcTime): int {
    Today(t) * NsPerDay + t.nanos
  }

  datatype PeriodStatistics = PeriodStatistics(period: StatisticsPeriod, totalAmount: real, count: nat, averageAmount: real)

  datatype StatsError = InvalidPeriod | StoreFailed(cause: StoreError)

  /** The first day of the period containing `now`, or `None` for an unknown period. */
  function StartDay(period: StatisticsPeriod, now: UtcTime): Option<int> {
    match period
    case PeriodDay => Some(Today(now))
    case PeriodWeek =>
      var w := Weekday(Today(now));
      var weekday := if w == 0 then 7 else w;
      Some(Today(now) - weekday + 1)
    case PeriodMonth => Some(DayNumber(now.year, now.month, 1))
    case PeriodYear => Some(DayNumber(now.year, 1, 1))
    case Unrecognized(_) => None
  }

  /** The start instant: midnight UTC of the start day. */
  function PeriodStart(period: StatisticsPeriod, now: UtcTime): (r: Option<int>)
    ensures r.Some? <==> !period.Unrecognized?
    ensures r.Some? ==> r.value % NsPerDay == 0 && r.value <= Instant(now)
  {
    match StartDay(period, now)
    case None => None
    case Some(d) =>
      StartDayNotAfterToday(period, now);
      MidnightBefore(d, Today(now), now.nanos);
      Some(d * NsPerDay)
  }

  /** Midnight of a day is a multiple of a day's length and not after any instant of
      that day or a later one. */
  lemma MidnightBefore(d: int, today: int, nanos: nat)
    requires d <= today
    ensures (d * NsPerDay) % NsPerDay == 0
    ensures d * NsPerDay <= today * NsPerDay + nanos
  {
    assert NsPerDay == 86_400_000_000_000;
  }

  lemma StartDayNotAfterToday(period: StatisticsPeriod, now: UtcTime)
    ensures StartDay(period, now).Some? ==> StartDay(period, now).value <= Today(now)
  {
    if period == PeriodYear {
      DayNumberMonotone(now.year, 1, 1, now.month, now.day);
    }
  }

  /** The day period starts at today's midnight. */
  lemma DayStartsAtMidnight(now: UtcTime)
    ensures PeriodStart(PeriodDay, now) == Some(Today(now) * NsPerDay)
    ensures Instant(now) - PeriodStart(PeriodDay, now).value == now.nanos
  {
  }

  /** The week starts on the Monday of the current ISO week: a Monday, 0 to 6 days
      before today (Sunday counts as the seventh day). */
  lemma WeekStartsOnMonday(now: UtcTime)
    ensures var d := StartDay(PeriodWeek, now).value;
            Weekday(d) == Monday && 0 <= Today(now) - d <= 6
    ensures Weekday(Today(now)) == 0 ==> Today(now) - StartDay(PeriodWeek, now).value == 6
  {
    MondayOfWeek(Today(now));
  }

  /** Going back `weekday - 1` days, with Sunday as day 7, lands on a Monday. */
  lemma MondayOfWeek(t: int)
    ensures var w := Weekday(t);
            var weekday := if w == 0 then 7 else w;
            Weekday(t - weekday + 1) == Monday && 1 <= weekday <= 7
  {
    var w := (t + 4) % 7;
    var q := (t + 4) / 7;
    assert t + 4 == 7 * q + w;
    if w == 0 {
      assert t - 7 + 1 + 4 == 7 * (q - 1) + 1;
    } else {
      assert t - w + 1 + 4 == 7 * q + 1;
    }
  }

  /** The month period starts on the first of the month, the year period on January 1. */
  lemma MonthAndYearStarts(now: UtcTime)
    ensures StartDay(PeriodMonth, now) == Some(Today(now) - now.day + 1)
    ensures StartDay(PeriodYear, now) == Some(DaysBeforeYear(now.year))
  {
  }

  /** `GetStatistics` with `fetch` standing for `GetPeriodStatistics(userID, start, end)`. */
  function GetStatistics(userId: nat, period: StatisticsPeriod, now: UtcTime,
                         fetch: (nat, int, int) -> Result<PeriodStatistics, StoreError>)
    : (r: Result<PeriodStatistics, StatsError>)
    ensures r == Err(InvalidPeriod) <==> period.Unrecognized?
    ensures r.Ok? ==> r.value.period == period && (r.value.count == 0 ==> r.value.averageAmount == 0.0)
    ensures r.Err? && !period.Unrecognized? ==> r.error.StoreFailed?
  {
    match PeriodStart(period, now)
    case None => Err(InvalidPeriod)
    case Some(start) =>
      match fetch(userId, start, Instant(now))
      case Err(e) => Err(StoreFailed(e))
      case Ok(stats) =>
        var average := if stats.count > 0 then stats.totalAmount / (stats.count as real) else 0.0;
        Ok(stats.(period := period, averageAmount := average))
  }

  /** An unknown period is an error before the repository is asked: the answer is
      the same whatever the repository would return. */
  lemma UnknownPeriodNeverQueries(userId: nat, raw: UnknownPeriodName, now: UtcTime,
                                  fetch: (nat, int, int) -> Result<PeriodStatistics, StoreError>,
                                  other: (nat, int, int) -> Result<PeriodStatistics, StoreError>)
    ensures GetStatistics(userId, Unrecognized(raw), now, fetch) == Err(InvalidPeriod)
    ensures GetStatistics(userId, Unrecognized(raw), now, fetch) == GetStatistics(userId, Unrecognized(raw), now, other)
  {
  }

  /** For a known period the repository is asked about `[start, now]` with
      `start <= now`; its error is returned as is; a result gets the requested period
      and an average that is 0 without expenses and the total over the count otherwise,
      the other figures kept. */
  lemma StatisticsResult(userId: nat, period: StatisticsPeriod, now: UtcTime,
                         fetch: (nat, int, int) -> Result<PeriodStatistics, StoreError>)
    requires !period.Unrecognized?
    ensures var start := PeriodStart(period, now).value;
            var r := GetStatistics(userId, period, now, fetch);
            start <= Instant(now) &&
            (fetch(userId, start, Instant(now)).Err? ==> r == Err(StoreFailed(fetch(userId, start, Instant(now)).error))) &&
            (fetch(userId, start, Instant(now)).Ok? ==>
               var stats := fetch(userId, start, Instant(now)).value;
               r.Ok? && r.value.period == period &&
               r.value.totalAmount == stats.totalAmount && r.value.count == stats.count &&
               (stats.count == 0 ==> r.value.averageAmount == 0.0) &&
               (stats.count > 0 ==> r.value.averageAmount * (stats.count as real) == stats.totalAmount))
  {
    var start := PeriodStart(period, now).value;
    var fetched := fetch(userId, start, Instant(now));
    if fetched.Ok? && fetched.value.count > 0 {
      AverageTimesCount(fetched.value.totalAmount, fetched.value.count);
    }
  }

  lemma AverageTimesCount(total: real, count: nat)
    requires count > 0
    ensures (total / (count as real)) * (count as real) == total
  {
  }
}
