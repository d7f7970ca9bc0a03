// UTC dates as section 21.4.1 of ECMA-262 defines them: day numbers from 1 January 1970, the
// proleptic Gregorian calendar, and the Date methods cron-parser.js calls. Months count from 0.
module Calendar {
  import opened Base

  const MS_PER_MINUTE: int := 60000
  const MS_PER_HOUR: int := 3600000
  const MS_PER_DAY: int := 86400000

  // ----- years -----

  predicate IsLeap(y: int) {
    y % 4 == 0 && (y % 100 != 0 || y % 400 == 0)
  }

  function DaysInYear(y: int): int {
    if IsLeap(y) then 366 else 365
  }

  /** Day number of 1 January: the years between it and 1 January 1970, added up. */
  function DayFromYear(y: int): int
    decreases if y < 1970 then 1970 - y else y - 1970
  {
    if y == 1970 then 0
    else if y > 1970 then DayFromYear(y - 1) + DaysInYear(y - 1)
    else DayFromYear(y + 1) - DaysInYear(y)
  }

  lemma YearLength(y: int)
    ensures DayFromYear(y + 1) == DayFromYear(y) + DaysInYear(y)
  {
  }

  /** The closed formula of section 21.4.1 of ECMA-262. */
  function DayFromYearFormula(y: int): int {
    365 * (y - 1970) + (y - 1969) / 4 - (y - 1901) / 100 + (y - 1601) / 400
  }

  /** One more year moves a term of the formula exactly when the period ends there. */
  lemma PeriodTerm(y: int, period: int, q: int)
    requires 1 < period
    ensures (y - q * period) / period == (y - 1 - q * period) / period + (if y % period == 0 then 1 else 0)
  {
    var k, r := y / period, y % period;
    assert y == k * period + r;
    assert (k - q) * period == k * period - q * period;
    Quotient(y - q * period, period, k - q, r);
    if r > 0 {
      Quotient(y - 1 - q * period, period, k - q, r - 1);
    } else {
      assert (k - q - 1) * period == (k - q) * period - period;
      Quotient(y - 1 - q * period, period, k - q - 1, period - 1);
    }
  }

  lemma PeriodsNest(y: int)
    ensures (y % 100 == 0 ==> y % 4 == 0) && (y % 400 == 0 ==> y % 100 == 0)
  {
    if y % 100 == 0 {
      Quotient(y, 4, 25 * (y / 100), 0);
    }
    if y % 400 == 0 {
      Quotient(y, 100, 4 * (y / 400), 0);
    }
  }

  lemma FormulaStep(y: int)
    ensures DayFromYearFormula(y + 1) == DayFromYearFormula(y) + DaysInYear(y)
  {
    PeriodTerm(y, 4, 492);
    PeriodTerm(y, 100, 19);
    PeriodTerm(y, 400, 4);
    PeriodsNest(y);
  }

  /** The formula with its three divisions adds up the years, leap years included, before and after 1970. */
  lemma {:induction false} FormulaAddsYears(y: int)
    ensures DayFromYearFormula(y) == DayFromYear(y)
    decreases if y < 1970 then 1970 - y else y - 1970
  {
    if y > 1970 {
      FormulaAddsYears(y - 1);
      FormulaStep(y - 1);
    } else if y < 1970 {
      FormulaAddsYears(y + 1);
      FormulaStep(y);
    }
  }

  lemma {:induction false} YearsAscend(y: int, z: int)
    requires y <= z
    ensures DayFromYear(y) + 365 * (z - y) <= DayFromYear(z)
    decreases z - y
  {
    if y < z {
      YearLength(y);
      YearsAscend(y + 1, z);
    }
  }

  /** The year whose days include day d (lemma YearSpan). */
  function YearOf(d: int): int {
    if d >= 0 then YearUp(d, 1970)
    else
      var n := (364 - d) / 365;
      YearsAscend(1970 - n, 1970);
      YearUp(d, 1970 - n)
  }

  function YearUp(d: int, from: int): int
    requires DayFromYear(from) <= d
    decreases d - DayFromYear(from)
  {
    YearLength(from);
    if d < DayFromYear(from + 1) then from else YearUp(d, from + 1)
  }

  lemma {:induction false} YearUpSpan(d: int, from: int)
    requires DayFromYear(from) <= d
    ensures DayFromYear(YearUp(d, from)) <= d < DayFromYear(YearUp(d, from) + 1)
    decreases d - DayFromYear(from)
  {
    hide DayFromYear;
    YearLength(from);
    if d >= DayFromYear(from + 1) {
      YearUpSpan(d, from + 1);
    }
  }

  lemma YearSpan(d: int)
    ensures DayFromYear(YearOf(d)) <= d < DayFromYear(YearOf(d) + 1)
  {
    if d >= 0 {
      YearUpSpan(d, 1970);
    } else {
      var n := (364 - d) / 365;
      YearsAscend(1970 - n, 1970);
      YearUpSpan(d, 1970 - n);
    }
  }

  lemma YearIsUnique(d: int, y: int)
    requires DayFromYear(y) <= d < DayFromYear(y + 1)
    ensures YearOf(d) == y
  {
    hide DayFromYear, YearOf;
    YearSpan(d);
    if YearOf(d) < y {
      YearsAscend(YearOf(d) + 1, y);
    } else if y < YearOf(d) {
      YearsAscend(y + 1, YearOf(d));
    }
  }

  // ----- months and days -----

  function MonthLength(y: int, m: int): int
    requires 0 <= m < 12
  {
    if m == 1 then (if IsLeap(y) then 29 else 28)
    else if m == 3 || m == 5 || m == 8 || m == 10 then 30
    else 31
  }

  /** Days of the year before month m. */
  function MonthStart(y: int, m: int): (n: int)
    requires 0 <= m <= 12
    ensures 0 <= n && (m == 0 ==> n == 0)
  {
    (if m == 0 then 0 else if m == 1 then 31 else if m == 2 then 59 else if m == 3 then 90
     else if m == 4 then 120 else if m == 5 then 151 else if m == 6 then 181 else if m == 7 then 212
     else if m == 8 then 243 else if m == 9 then 273 else if m == 10 then 304 else if m == 11 then 334
     else 365) + (if 2 <= m && IsLeap(y) then 1 else 0)
  }

  /** From March on the months before m have the days of the five-month pattern 31 30 31 30 31, which makes 153. */
  lemma MonthsFollowPattern(y: int, m: int)
    requires 2 <= m <= 12
    ensures MonthStart(y, m) == 59 + (153 * (m - 2) + 2) / 5 + (if IsLeap(y) then 1 else 0)
    ensures MonthStart(y, 1) == 31
  {
  }

  lemma MonthsFillYear(y: int, m: int)
    requires 0 <= m < 12
    ensures MonthStart(y, m + 1) == MonthStart(y, m) + MonthLength(y, m)
    ensures MonthStart(y, 12) == DaysInYear(y)
  {
  }

  lemma MonthsAscend(y: int, m: int, n: int)
    requires 0 <= m < n <= 12
    ensures MonthStart(y, m) + MonthLength(y, m) <= MonthStart(y, n)
  {
  }

  function DayWithinYear(d: int): int {
    d - DayFromYear(YearOf(d))
  }

  function MonthOf(d: int): (m: int)
    ensures 0 <= m < 12
  {
    YearSpan(d);
    YearLength(YearOf(d));
    MonthFrom(YearOf(d), DayWithinYear(d), 0)
  }

  function MonthFrom(y: int, n: int, from: int): (m: int)
    requires 0 <= from < 12 && MonthStart(y, from) <= n < DaysInYear(y)
    ensures 0 <= m < 12
    decreases 12 - from
  {
    MonthsFillYear(y, from);
    if n < MonthStart(y, from + 1) then from else MonthFrom(y, n, from + 1)
  }

  lemma {:induction false} MonthFromSpan(y: int, n: int, from: int)
    requires 0 <= from < 12 && MonthStart(y, from) <= n < DaysInYear(y)
    ensures MonthStart(y, MonthFrom(y, n, from)) <= n < MonthStart(y, MonthFrom(y, n, from) + 1)
    decreases 12 - from
  {
    hide MonthStart, DaysInYear;
    MonthsFillYear(y, from);
    if n >= MonthStart(y, from + 1) {
      MonthFromSpan(y, n, from + 1);
    }
  }

  function DateOf(d: int): int {
    DayWithinYear(d) - MonthStart(YearOf(d), MonthOf(d)) + 1
  }

  lemma MonthSpan(d: int)
    ensures MonthStart(YearOf(d), MonthOf(d)) <= DayWithinYear(d) < MonthStart(YearOf(d), MonthOf(d) + 1)
  {
    hide DayFromYear, YearOf, MonthStart, MonthFrom;
    YearSpan(d);
    YearLength(YearOf(d));
    MonthFromSpan(YearOf(d), DayWithinYear(d), 0);
  }

  /** 0 is Sunday; day 0 was a Thursday. */
  function WeekDay(d: int): int {
    (d + 4) % 7
  }

  /** Months past December count on into the next year, and dates before or past the month are days away
      from its first. */
  function MakeDay(y: int, m: nat, dt: int): int
    decreases m
  {
    if m >= 12 then MakeDay(y + 1, m - 12, dt) else DayFromYear(y) + MonthStart(y, m) + dt - 1
  }

  predicate IsDate(y: int, m: int, dt: int) {
    0 <= m < 12 && 1 <= dt <= MonthLength(y, m)
  }

  /** Encoding undoes decoding. */
  lemma EncodeDecoded(d: int)
    ensures IsDate(YearOf(d), MonthOf(d), DateOf(d)) && MakeDay(YearOf(d), MonthOf(d), DateOf(d)) == d
  {
    hide DayFromYear, IsLeap, YearOf, MonthOf, MonthStart, MonthLength;
    MonthSpan(d);
    MonthsFillYear(YearOf(d), MonthOf(d));
  }

  /** Decoding undoes encoding. */
  lemma DecodeEncoded(y: int, m: int, dt: int)
    requires IsDate(y, m, dt)
    ensures var d := MakeDay(y, m, dt); YearOf(d) == y && MonthOf(d) == m && DateOf(d) == dt
  {
    hide DayFromYear, IsLeap, YearOf, MonthOf, MonthStart, MonthLength;
    var d := MakeDay(y, m, dt);
    YearLength(y);
    MonthsFillYear(y, m);
    MonthsAscend(y, m, 12);
    YearIsUnique(d, y);
    MonthSpan(d);
    var k := MonthOf(d);
    if k < m {
      MonthsAscend(y, k, m);
      MonthsFillYear(y, k);
    } else if m < k {
      MonthsAscend(y, m, k);
    }
  }

  /** new Date(year, month + 1, 0).getDate() is the length of the month. */
  lemma LastDayIsMonthLength(y: int, m: int)
    requires 0 <= m < 12
    ensures DateOf(MakeDay(y, m + 1, 0)) == MonthLength(y, m)
  {
    hide DayFromYear, IsLeap, YearOf;
    MonthsFillYear(y, m);
    YearLength(y);
    assert MakeDay(y, m + 1, 0) == MakeDay(y, m, MonthLength(y, m)) by {
      if m == 11 {
        assert MakeDay(y, 12, 0) == MakeDay(y + 1, 0, 0);
      }
    }
    DecodeEncoded(y, m, MonthLength(y, m));
  }

  // ----- times -----

  function Day(t: int): int { t / MS_PER_DAY }

  function TimeWithinDay(t: int): int { t % MS_PER_DAY }

  function HourOf(t: int): int { TimeWithinDay(t) / MS_PER_HOUR }

  function MinuteOf(t: int): int { TimeWithinDay(t) % MS_PER_HOUR / MS_PER_MINUTE }

  /** Seconds and milliseconds together. */
  function WithinMinute(t: int): int { t % MS_PER_MINUTE }

  function MakeTime(hour: int, minute: int, rest: int): int {
    hour * MS_PER_HOUR + minute * MS_PER_MINUTE + rest
  }

  /** setSeconds(0, 0) */
  function StartOfMinute(t: int): int {
    Day(t) * MS_PER_DAY + MakeTime(HourOf(t), MinuteOf(t), 0)
  }

  /** setMinutes(minute) */
  function WithMinutes(t: int, minute: int): int {
    Day(t) * MS_PER_DAY + MakeTime(HourOf(t), minute, WithinMinute(t))
  }

  /** setFullYear(year) */
  function WithFullYear(t: int, year: int): int {
    MakeDay(year, MonthOf(Day(t)), DateOf(Day(t))) * MS_PER_DAY + TimeWithinDay(t)
  }

  lemma StartOfMinuteRounds(t: int)
    ensures StartOfMinute(t) == t - t % MS_PER_MINUTE
  {
  }

  lemma NextMinuteAdds(t: int)
    ensures WithMinutes(t, MinuteOf(t) + 1) == t + MS_PER_MINUTE
  {
  }

  /** What the search reads off a candidate. */
  datatype Civil = Civil(year: int, month: int, date: int, weekday: int, hour: int, minute: int)

  function Decode(t: int): Civil {
    Civil(YearOf(Day(t)), MonthOf(Day(t)), DateOf(Day(t)), WeekDay(Day(t)), HourOf(t), MinuteOf(t))
  }

  predicate IsCivil(c: Civil) {
    IsDate(c.year, c.month, c.date) && 0 <= c.weekday < 7 && 0 <= c.hour < 24 && 0 <= c.minute < 60
  }

  /** One minute later on a calendar with a clock: carry into hour, day, month and year. */
  function Tick(c: Civil): Civil
    requires IsCivil(c)
  {
    if c.minute < 59 then c.(minute := c.minute + 1)
    else if c.hour < 23 then c.(minute := 0, hour := c.hour + 1)
    else
      var d := c.(minute := 0, hour := 0, weekday := if c.weekday == 6 then 0 else c.weekday + 1);
      if c.date < MonthLength(c.year, c.month) then d.(date := c.date + 1)
      else if c.month < 11 then d.(date := 1, month := c.month + 1)
      else d.(date := 1, month := 0, year := c.year + 1)
  }

  lemma NextDay(d: int)
    ensures var (y, m, dt) := (YearOf(d), MonthOf(d), DateOf(d));
            (YearOf(d + 1), MonthOf(d + 1), DateOf(d + 1)) ==
            if dt < MonthLength(y, m) then (y, m, dt + 1) else if m < 11 then (y, m + 1, 1) else (y + 1, 0, 1)
  {
    hide DayFromYear, IsLeap, YearOf, MonthOf, MonthStart, DateOf;
    var (y, m, dt) := (YearOf(d), MonthOf(d), DateOf(d));
    EncodeDecoded(d);
    MonthsFillYear(y, m);
    if dt < MonthLength(y, m) {
      DecodeEncoded(y, m, dt + 1);
    } else if m < 11 {
      DecodeEncoded(y, m + 1, 1);
    } else {
      YearLength(y);
      DecodeEncoded(y + 1, 0, 1);
    }
  }

  lemma ClockParts(t: int)
    ensures 0 <= HourOf(t) < 24 && 0 <= MinuteOf(t) < 60
    ensures 0 <= WithinMinute(t) < MS_PER_MINUTE
    ensures t == Day(t) * MS_PER_DAY + HourOf(t) * MS_PER_HOUR + MinuteOf(t) * MS_PER_MINUTE + WithinMinute(t)
  {
  }

  lemma ClockFrom(day: int, hour: int, minute: int, rest: int)
    requires 0 <= hour < 24 && 0 <= minute < 60 && 0 <= rest < MS_PER_MINUTE
    ensures var t := day * MS_PER_DAY + MakeTime(hour, minute, rest);
            Day(t) == day && HourOf(t) == hour && MinuteOf(t) == minute && WithinMinute(t) == rest
  {
    var t := day * MS_PER_DAY + MakeTime(hour, minute, rest);
    Quotient(t, MS_PER_DAY, day, MakeTime(hour, minute, rest));
    Quotient(MakeTime(hour, minute, rest), MS_PER_HOUR, hour, MakeTime(0, minute, rest));
    Quotient(MakeTime(0, minute, rest), MS_PER_MINUTE, minute, rest);
    Quotient(t, MS_PER_MINUTE, day * 1440 + hour * 60 + minute, rest);
  }

  lemma DecodedIsCivil(t: int)
    ensures IsCivil(Decode(t))
  {
    ClockParts(t);
    EncodeDecoded(Day(t));
  }

  lemma MinuteMovesClock(t: int)
    ensures var (d, h, mi) := (Day(t), HourOf(t), MinuteOf(t));
            (Day(t + MS_PER_MINUTE), HourOf(t + MS_PER_MINUTE), MinuteOf(t + MS_PER_MINUTE)) ==
            if mi < 59 then (d, h, mi + 1) else if h < 23 then (d, h + 1, 0) else (d + 1, 0, 0)
  {
    hide Day, HourOf, MinuteOf, WithinMinute;
    ClockParts(t);
    var (d, h, mi, rest) := (Day(t), HourOf(t), MinuteOf(t), WithinMinute(t));
    if mi < 59 {
      ClockFrom(d, h, mi + 1, rest);
    } else if h < 23 {
      ClockFrom(d, h + 1, 0, rest);
    } else {
      ClockFrom(d + 1, 0, 0, rest);
    }
  }

  /** Adding a minute is one tick of the calendar clock. */
  lemma MinuteIsTick(t: int)
    ensures IsCivil(Decode(t)) && Decode(t + MS_PER_MINUTE) == Tick(Decode(t))
  {
    hide YearOf, MonthOf, DateOf, Day, HourOf, MinuteOf, MonthLength, DayFromYear, MonthStart, DayWithinYear;
    DecodedIsCivil(t);
    MinuteMovesClock(t);
    NextDay(Day(t));
  }

  ghost function Ticks(c: Civil, n: nat): (r: Civil)
    requires IsCivil(c)
    ensures IsCivil(r)
  {
    if n == 0 then c
    else
      var b := Ticks(c, n - 1);
      TickIsCivil(b);
      Tick(b)
  }

  lemma TickIsCivil(c: Civil)
    requires IsCivil(c)
    ensures IsCivil(Tick(c))
  {
  }

  /** After n increments the candidate shows the start carried forward n minutes through hours, days,
      months of their own lengths, and leap years. */
  lemma {:induction false} MinutesAreTicks(t: int, n: nat)
    ensures IsCivil(Decode(t)) && Decode(t + n * MS_PER_MINUTE) == Ticks(Decode(t), n)
  {
    hide Decode, Tick;
    DecodedIsCivil(t);
    if n > 0 {
      MinutesAreTicks(t, n - 1);
      MinuteIsTick(t + (n - 1) * MS_PER_MINUTE);
    }
  }
}
