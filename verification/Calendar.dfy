/**
 Civil dates (components/pm_network/pm_network_v2.c): the closed form that numbers days, against a calendar that
 is walked one day at a time with the month-length and leap-year rules of the same file (section 5.7 and
 appendix C of RFC 3339).
 */
module Calendar {
  datatype Date = Date(year: int, month: nat, day: nat)

  const EPOCH := Date(1970, 1, 1)

  predicate Leap(year: int) { year % 4 == 0 && (year % 100 != 0 || year % 400 == 0) }

  function MonthLength(year: int, month: nat): nat {
    if month == 2 then (if Leap(year) then 29 else 28)
    else if month == 4 || month == 6 || month == 9 || month == 11 then 30
    else 31
  }

  /** The date checks of `pm_network_parse_rfc3339_ms`, for any year. */
  predicate Valid(d: Date) { 1 <= d.month <= 12 && 1 <= d.day <= MonthLength(d.year, d.month) }

  /** The calendar, one day at a time. */
  function Tomorrow(d: Date): Date {
    if d.day < MonthLength(d.year, d.month) then d.(day := d.day + 1)
    else if d.month < 12 then Date(d.year, d.month + 1, 1)
    else Date(d.year + 1, 1, 1)
  }

  /** The date `n` days after the epoch. */
  function After(n: nat): Date { if n == 0 then EPOCH else Tomorrow(After(n - 1)) }

  predicate Earlier(d: Date, e: Date) {
    d.year < e.year || (d.year == e.year && (d.month < e.month || (d.month == e.month && d.day < e.day)))
  }

  /** Division as C does it. */
  function TruncatedDivision(a: int, b: int): int
    requires b > 0
  {
    if a >= 0 then a / b else -((-a) / b)
  }

  /** `days_from_civil`. */
  function DaysFromCivil(d: Date): int
    requires d.month > 0
  {
    var year := if d.month <= 2 then d.year - 1 else d.year;
    var era := TruncatedDivision(if year >= 0 then year else year - 399, 400);
    var yoe := year - era * 400;
    var doy := (153 * (if d.month > 2 then d.month - 3 else d.month + 9) + 2) / 5 + d.day - 1;
    var doe := yoe * 365 + yoe / 4 - yoe / 100 + doy;
    era * 146097 + doe - 719468
  }

  /** Days before the first of March of a year that begins in March. */
  function MarchDays(year: int): int { 365 * year + year / 4 - year / 100 + year / 400 }

  function DayOfMarchYear(month: nat, day: nat): int {
    (153 * (if month > 2 then month - 3 else month + 9) + 2) / 5 + day - 1
  }

  function MarchYear(d: Date): int { if d.month <= 2 then d.year - 1 else d.year }

  function Flat(d: Date): int { MarchDays(MarchYear(d)) + DayOfMarchYear(d.month, d.day) - 719468 }

  lemma EraIsFloor(year: int)
    ensures TruncatedDivision(if year >= 0 then year else year - 399, 400) == year / 400
  {
  }

  /** Counting in eras of four hundred years changes nothing. */
  lemma ErasAddUp(year: int)
    ensures var era := year / 400; var yoe := year - era * 400;
            0 <= yoe < 400 && era * 146097 + yoe * 365 + yoe / 4 - yoe / 100 == MarchDays(year)
  {
    var era := year / 400;
    var yoe := year - era * 400;
    assert year / 4 == era * 100 + yoe / 4;
    assert year / 100 == era * 4 + yoe / 100;
  }

  lemma Flattened(d: Date)
    requires 1 <= d.month <= 12
    ensures DaysFromCivil(d) == Flat(d)
  {
    var year := if d.month <= 2 then d.year - 1 else d.year;
    EraIsFloor(year);
    ErasAddUp(year);
  }

  lemma Fourths(y: int)
    ensures y / 4 - (y - 1) / 4 == if y % 4 == 0 then 1 else 0
  {
  }

  lemma Hundredths(y: int)
    ensures y / 100 - (y - 1) / 100 == if y % 100 == 0 then 1 else 0
  {
  }

  lemma FourHundredths(y: int)
    ensures y / 400 - (y - 1) / 400 == if y % 400 == 0 then 1 else 0
  {
  }

  lemma Multiples(y: int)
    ensures (y % 400 == 0 ==> y % 100 == 0) && (y % 100 == 0 ==> y % 4 == 0)
  {
  }

  /** A year that begins in March has a leap day when the year it ends in is a leap year. */
  lemma MarchYearLength(year: int)
    ensures MarchDays(year) - MarchDays(year - 1) == if Leap(year) then 366 else 365
  {
    Fourths(year);
    Hundredths(year);
    FourHundredths(year);
    Multiples(year);
  }

  /** Inside a year that begins in March, the linear formula has the months' lengths. */
  lemma MonthsAddUp(year: int, month: nat)
    requires 1 <= month <= 12
    ensures month != 2 ==>
              var next := if month < 12 then month + 1 else 1;
              DayOfMarchYear(next, 1) == DayOfMarchYear(month, MonthLength(year, month)) + 1
    ensures month == 2 ==>
              DayOfMarchYear(2, MonthLength(year, 2)) == (if Leap(year) then 365 else 364) && DayOfMarchYear(3, 1) == 0
  {
  }

  lemma FlatStepsByOne(d: Date)
    requires Valid(d)
    ensures Valid(Tomorrow(d)) && Flat(Tomorrow(d)) == Flat(d) + 1
  {
    MonthsAddUp(d.year, d.month);
    if d.month == 2 && d.day == MonthLength(d.year, 2) { MarchYearLength(d.year); }
  }

  /** The closed form advances by exactly one from any valid date to the next. */
  lemma StepsByOne(d: Date)
    requires Valid(d)
    ensures Valid(Tomorrow(d)) && DaysFromCivil(Tomorrow(d)) == DaysFromCivil(d) + 1
  {
    Flattened(d);
    Flattened(Tomorrow(d));
    FlatStepsByOne(d);
  }

  lemma LaterThanBefore(d: Date)
    requires Valid(d)
    ensures Earlier(d, Tomorrow(d))
  {
  }

  /** Counted one day at a time from the epoch, the closed form is the number of days counted. */
  lemma {:induction false} CountsDays(n: nat)
    ensures Valid(After(n)) && DaysFromCivil(After(n)) == n && !Earlier(After(n), EPOCH)
  {
    if n > 0 {
      CountsDays(n - 1);
      StepsByOne(After(n - 1));
      LaterThanBefore(After(n - 1));
    }
  }

  function Yesterday(d: Date): Date {
    if d.day > 1 then d.(day := d.day - 1)
    else if d.month > 1 then Date(d.year, d.month - 1, MonthLength(d.year, d.month - 1))
    else Date(d.year - 1, 12, 31)
  }

  lemma YesterdayUndoesTomorrow(d: Date)
    requires Valid(d)
    ensures Valid(Yesterday(d)) && Tomorrow(Yesterday(d)) == d
    ensures Earlier(EPOCH, d) ==> !Earlier(Yesterday(d), EPOCH)
  {
  }

  function Distance(d: Date): nat {
    if d.year < 1970 then 0 else (d.year - 1970) * 372 + d.month * 31 + d.day
  }

  /**
   Every date from the epoch on is reached by counting, and the closed form says after how many days: with
   `CountsDays` the dates from 1970-01-01 on and the natural numbers correspond one to one.
   */
  lemma {:induction false} EveryDateIsCounted(d: Date)
    requires Valid(d) && !Earlier(d, EPOCH)
    ensures DaysFromCivil(d) >= 0 && After(DaysFromCivil(d)) == d
    decreases Distance(d)
  {
    if d != EPOCH {
      var y := Yesterday(d);
      YesterdayUndoesTomorrow(d);
      EveryDateIsCounted(y);
      StepsByOne(y);
    }
  }

  lemma {:induction false} CountingGoesForward(m: nat, n: nat)
    requires m < n
    ensures Earlier(After(m), After(n))
    decreases n
  {
    CountsDays(n - 1);
    LaterThanBefore(After(n - 1));
    if m < n - 1 { CountingGoesForward(m, n - 1); }
  }

  /** Strictly monotone, in both directions: dates compare as their numbers do. */
  lemma NumbersOrderDates(d: Date, e: Date)
    requires Valid(d) && Valid(e) && !Earlier(d, EPOCH) && !Earlier(e, EPOCH)
    ensures Earlier(d, e) <==> DaysFromCivil(d) < DaysFromCivil(e)
  {
    EveryDateIsCounted(d);
    EveryDateIsCounted(e);
    var m, n := DaysFromCivil(d), DaysFromCivil(e);
    if m < n { CountingGoesForward(m, n); }
    if n < m { CountingGoesForward(n, m); }
  }

  /* ---- Instants ---- */

  datatype Instant = Instant(date: Date, hour: nat, minute: nat, second: nat, ms: nat)

  /** What the parser accepts; second 60 is a leap second. */
  predicate Accepted(t: Instant) {
    Valid(t.date) && 1970 <= t.date.year <= 9999 && t.hour <= 23 && t.minute <= 59 && t.second <= 60 && t.ms <= 999
  }

  /** The value `pm_network_parse_rfc3339_ms` computes from the fields and the offset of the zone. */
  function UtcMs(t: Instant, offset: int): int
    requires Valid(t.date)
  {
    (DaysFromCivil(t.date) * 86400 + t.hour * 3600 + t.minute * 60 +
     (if t.second == 60 then 59 else t.second) - offset) * 1000 + t.ms
  }

  predicate Before(t: Instant, u: Instant) {
    Earlier(t.date, u.date) || (t.date == u.date && (t.hour < u.hour || (t.hour == u.hour && (t.minute < u.minute ||
      (t.minute == u.minute && (t.second < u.second || (t.second == u.second && t.ms < u.ms)))))))
  }

  /** In one zone timestamps compare as their fields do, leap seconds aside. */
  lemma TimestampsAreOrdered(t: Instant, u: Instant, offset: int)
    requires Accepted(t) && Accepted(u) && t.second < 60 && u.second < 60
    ensures Before(t, u) <==> UtcMs(t, offset) < UtcMs(u, offset)
  {
    NumbersOrderDates(t.date, u.date);
    NumbersOrderDates(u.date, t.date);
    if t.date != u.date { EveryDateIsCounted(t.date); EveryDateIsCounted(u.date); }
  }

  /** The largest timestamp accepted fits the 64 bits it is stored in, with room to spare. */
  lemma TimestampsFit(t: Instant, offset: int)
    requires Accepted(t) && -86400 < offset < 86400
    ensures -86_400_000 <= UtcMs(t, offset) < 0x7FFF_FFFF_FFFF_FFFF
  {
    EveryDateIsCounted(t.date);
    Flattened(t.date);
  }

  /* ---- Zones ---- */

  /** The end of a timestamp: `Z`, or how far the clock it was read from is ahead of UTC or behind it. */
  datatype Zone = Utc | Ahead(hours: nat, minutes: nat) | Behind(hours: nat, minutes: nat)

  function Offset(z: Zone): int {
    match z
    case Utc => 0
    case Ahead(hours, minutes) => hours * 3600 + minutes * 60
    case Behind(hours, minutes) => -(hours * 3600 + minutes * 60)
  }

  /** What a clock shows a minute later. */
  function MinuteLater(t: Instant): Instant {
    if t.minute < 59 then t.(minute := t.minute + 1)
    else if t.hour < 23 then t.(minute := 0, hour := t.hour + 1)
    else t.(minute := 0, hour := 0, date := Tomorrow(t.date))
  }

  function MinutesLater(t: Instant, n: nat): Instant { if n == 0 then t else MinuteLater(MinutesLater(t, n - 1)) }

  predicate OnClock(t: Instant) { Valid(t.date) && t.hour <= 23 && t.minute <= 59 }

  lemma {:induction false} MinutesAddUp(t: Instant, n: nat, offset: int)
    requires OnClock(t)
    ensures OnClock(MinutesLater(t, n)) && UtcMs(MinutesLater(t, n), offset) == UtcMs(t, offset) + 60000 * n
  {
    if n > 0 {
      MinutesAddUp(t, n - 1, offset);
      StepsByOne(MinutesLater(t, n - 1).date);
    }
  }

  /**
   A timestamp denotes the same instant in every zone. While the clock of UTC shows `t`, a clock that is ahead shows
   what UTC will show so many minutes later, and a clock that shows `t` and is behind belongs to the instant at which
   UTC shows what it itself will show so many minutes later.
   */
  lemma ZonesAgree(t: Instant, hours: nat, minutes: nat)
    requires OnClock(t)
    ensures var shown := MinutesLater(t, 60 * hours + minutes);
            && OnClock(shown)
            && UtcMs(shown, Offset(Ahead(hours, minutes))) == UtcMs(t, Offset(Utc))
            && UtcMs(t, Offset(Behind(hours, minutes))) == UtcMs(shown, Offset(Utc))
  {
    MinutesAddUp(t, 60 * hours + minutes, 0);
  }

  /**
   Of two instants of one day in UTC the later has the larger value, by so many milliseconds as lie between them.
   A leap second has the values of the second before it.
   */
  lemma DayInMilliseconds(n: nat, hour: nat, minute: nat, second: nat, ms: nat)
    requires second < 60
    ensures Valid(After(n)) &&
            UtcMs(Instant(After(n), hour, minute, second, ms), 0) ==
            n * 86_400_000 + hour * 3_600_000 + minute * 60_000 + second * 1000 + ms
    ensures second == 59 ==>
              UtcMs(Instant(After(n), hour, minute, 60, ms), 0) == UtcMs(Instant(After(n), hour, minute, 59, ms), 0)
  {
    CountsDays(n);
  }
}
