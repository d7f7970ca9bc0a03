// When the search of src/lib/cron-parser.js finds a time, for every expression, and how far away it is.
module CronCompleteness {
  import opened Base
  import opened CronField
  import opened Calendar
  import opened CronSearch

  // ----- accepted dates and times of day -----

  /** Milliseconds of minute (hour, minute) on a date. */
  function At(y: int, m: nat, dt: int, hour: int, minute: int): int {
    MakeDay(y, m, dt) * MS_PER_DAY + MakeTime(hour, minute, 0)
  }

  lemma AtDecodes(y: int, m: int, dt: int, hour: int, minute: int)
    requires IsDate(y, m, dt) && 0 <= hour < 24 && 0 <= minute < 60
    ensures var t := At(y, m, dt, hour, minute);
            && t % MS_PER_MINUTE == 0 && Day(t) == MakeDay(y, m, dt) && YearOf(Day(t)) == y
            && Decode(t) == Civil(y, m, dt, WeekDay(MakeDay(y, m, dt)), hour, minute)
  {
    hide MakeDay, YearOf, MonthOf, DateOf, DayFromYear, MonthLength;
    DecodeEncoded(y, m, dt);
    ClockFrom(MakeDay(y, m, dt), hour, minute, 0);
  }

  predicate SomeMinute(parts: seq<string>, hour: int, minute: int)
    requires Runs(parts)
  {
    0 <= hour < 24 && 0 <= minute < 60 && Matches(hour, parts[1], 0, 23) && Matches(minute, parts[0], 0, 59)
  }

  ghost predicate HasMinute(parts: seq<string>)
    requires Runs(parts)
  {
    exists hour, minute :: SomeMinute(parts, hour, minute)
  }

  /** Month, day of month and weekday all accept the date. */
  predicate DateAccepted(parts: seq<string>, y: int, m: int, dt: int)
    requires Runs(parts)
  {
    && IsDate(y, m, dt)
    && Matches(m + 1, parts[3], 1, 12)
    && (if parts[2] == "L" then dt == MonthLength(y, m) else Matches(dt, parts[2], 1, 31))
    && Matches(WeekDay(MakeDay(y, m, dt)), parts[4], 0, 7)
  }

  lemma WeekDayRange(d: int)
    ensures 0 <= WeekDay(d) < 7
  {
  }

  /** An accepted time of day on an accepted date fires. */
  lemma AcceptedDateFires(parts: seq<string>, y: int, m: int, dt: int, hour: int, minute: int)
    requires Runs(parts) && DateAccepted(parts, y, m, dt) && SomeMinute(parts, hour, minute)
    ensures FiresAt(parts, At(y, m, dt, hour, minute))
  {
    hide At, Matches, MakeDay, WeekDay, YearOf, MonthOf, DateOf, HourOf, MinuteOf, Day;
    AtDecodes(y, m, dt, hour, minute);
    WeekDayRange(MakeDay(y, m, dt));
  }

  /** A firing minute is an accepted time of day on an accepted date. */
  lemma FiresOnAcceptedDate(parts: seq<string>, t: int)
    requires Runs(parts) && FiresAt(parts, t)
    ensures var (y, m, dt) := (YearOf(Day(t)), MonthOf(Day(t)), DateOf(Day(t)));
            && DateAccepted(parts, y, m, dt) && SomeMinute(parts, HourOf(t), MinuteOf(t))
            && t == At(y, m, dt, HourOf(t), MinuteOf(t))
  {
    hide Matches, MakeDay, YearOf, MonthOf, DateOf, HourOf, MinuteOf, Day, DayFromYear, WeekDay;
    DecodedIsCivil(t);
    ClockParts(t);
    EncodeDecoded(Day(t));
  }

  // ----- where the window ends -----

  /** The date in the year after next at which the search gives up: 29 February carries over to 1 March. */
  function LimitDate(after: int): (int, int) {
    var (m, dt) := (MonthOf(Day(after)), DateOf(Day(after)));
    if m == 1 && dt == 29 then (2, 1) else (m, dt)
  }

  lemma LimitIs(after: int)
    ensures var (y, (m, dt)) := (YearOf(Day(after)) + 2, LimitDate(after));
            IsDate(y, m, dt) && Limit(after) == MakeDay(y, m, dt) * MS_PER_DAY + TimeWithinDay(after)
  {
    hide YearOf, MonthOf, DateOf, DayFromYear, Day;
    var (y, m, dt) := (YearOf(Day(after)), MonthOf(Day(after)), DateOf(Day(after)));
    EncodeDecoded(Day(after));
    assert !(IsLeap(y) && IsLeap(y + 2));
    assert m == 1 && dt == 29 ==> MakeDay(y + 2, 1, 29) == MakeDay(y + 2, 2, 1);
  }

  /** The date and time of day come before those of the limit. */
  predicate BeforeLimit(after: int, m: int, dt: int, hour: int, minute: int) {
    var (limitMonth, limitDate) := LimitDate(after);
    || m < limitMonth
    || (m == limitMonth && dt < limitDate)
    || (m == limitMonth && dt == limitDate && MakeTime(hour, minute, 0) < TimeWithinDay(after))
  }

  lemma DatesInOrder(y: int, m: int, dt: int, n: int, du: int)
    requires IsDate(y, m, dt) && IsDate(y, n, du)
    ensures MakeDay(y, m, dt) < MakeDay(y, n, du) <==> m < n || (m == n && dt < du)
    ensures MakeDay(y, m, dt) == MakeDay(y, n, du) <==> m == n && dt == du
  {
    hide DayFromYear, MonthStart, MonthLength;
    if m < n {
      MonthsAscend(y, m, n);
    } else if n < m {
      MonthsAscend(y, n, m);
    }
  }

  lemma TimesInOrder(d: int, time: int, e: int, other: int)
    requires 0 <= time < MS_PER_DAY && 0 <= other < MS_PER_DAY
    ensures d * MS_PER_DAY + time < e * MS_PER_DAY + other <==> d < e || (d == e && time < other)
  {
  }

  lemma BeforeLimitExactly(after: int, m: int, dt: int, hour: int, minute: int)
    requires IsDate(YearOf(Day(after)) + 2, m, dt) && 0 <= hour < 24 && 0 <= minute < 60
    ensures At(YearOf(Day(after)) + 2, m, dt, hour, minute) < Limit(after) <==> BeforeLimit(after, m, dt, hour, minute)
  {
    hide YearOf, MonthOf, DateOf, DayFromYear, Day, MakeDay, Limit, LimitDate, MonthLength;
    var y := YearOf(Day(after)) + 2;
    var (n, du) := LimitDate(after);
    LimitIs(after);
    DatesInOrder(y, m, dt, n, du);
    TimesInOrder(MakeDay(y, m, dt), MakeTime(hour, minute, 0), MakeDay(y, n, du), TimeWithinDay(after));
  }

  lemma LimitYear(after: int)
    ensures YearOf(Day(Limit(after))) == YearOf(Day(after)) + 2
  {
    hide YearOf, MonthOf, DateOf, DayFromYear, MakeDay, Limit, LimitDate, MonthLength;
    var (y, (m, dt)) := (YearOf(Day(after)) + 2, LimitDate(after));
    LimitIs(after);
    DecodeEncoded(y, m, dt);
    Quotient(Limit(after), MS_PER_DAY, MakeDay(y, m, dt), TimeWithinDay(after));
  }

  /** The same day a year on is 365 or 366 days away, and so is the last day of the month. */
  lemma OneYearOn(y: int, m: int, dt: int)
    requires 0 <= m < 12
    ensures 365 <= MakeDay(y + 1, m, dt) - MakeDay(y, m, dt) <= 366
    ensures 365 <= MakeDay(y + 1, m, MonthLength(y + 1, m)) - MakeDay(y, m, MonthLength(y, m)) <= 366
  {
    hide DayFromYear;
    YearLength(y);
    assert !(IsLeap(y) && IsLeap(y + 1));
  }

  /** Times of a later year are later. */
  lemma LaterYearIsLater(t: int, u: int)
    requires YearOf(Day(t)) < YearOf(Day(u))
    ensures t < u
  {
    hide DayFromYear, YearOf;
    YearSpan(Day(t));
    YearSpan(Day(u));
    YearsAscend(YearOf(Day(t)) + 1, YearOf(Day(u)));
    assert Day(t) < Day(u);
  }

  /** In one year, two days are less than 366 apart. */
  lemma OneYearApart(t: int, u: int)
    requires YearOf(Day(t)) == YearOf(Day(u))
    ensures u - t < 366 * MS_PER_DAY
  {
    hide DayFromYear, YearOf;
    YearSpan(Day(t));
    YearSpan(Day(u));
    YearLength(YearOf(Day(t)));
    assert Day(u) - Day(t) <= 365;
  }

  // ----- the exact condition -----

  /** An accepted date of this year with an accepted time still to come, of next year with any accepted
      time, or of the year after next with an accepted time before the date and time of the limit. */
  ghost predicate DateAhead(parts: seq<string>, after: int, y: int, m: int, dt: int)
    requires Runs(parts)
  {
    var thisYear := YearOf(Day(after));
    && DateAccepted(parts, y, m, dt)
    && exists hour, minute ::
        && SomeMinute(parts, hour, minute)
        && (|| (y == thisYear && after < At(y, m, dt, hour, minute))
            || y == thisYear + 1
            || (y == thisYear + 2 && BeforeLimit(after, m, dt, hour, minute)))
  }

  lemma DateAheadIsFound(parts: seq<string>, after: int, y: int, m: int, dt: int)
    requires Runs(parts) && DateAhead(parts, after, y, m, dt)
    ensures exists t :: InWindow(parts, after, t)
  {
    hide Matches, FiresAt, Limit, MakeDay, YearOf, MonthOf, DateOf, DayFromYear, Day, At, WeekDay, BeforeLimit;
    var thisYear := YearOf(Day(after));
    var hour, minute :|
      && SomeMinute(parts, hour, minute)
      && (|| (y == thisYear && after < At(y, m, dt, hour, minute))
          || y == thisYear + 1
          || (y == thisYear + 2 && BeforeLimit(after, m, dt, hour, minute)));
    var t := At(y, m, dt, hour, minute);
    AcceptedDateFires(parts, y, m, dt, hour, minute);
    AtDecodes(y, m, dt, hour, minute);
    LimitYear(after);
    if y == thisYear + 2 {
      BeforeLimitExactly(after, m, dt, hour, minute);
    } else {
      LaterYearIsLater(t, Limit(after));
    }
    if y > thisYear {
      LaterYearIsLater(after, t);
    }
    assert InWindow(parts, after, t);
  }

  lemma FoundIsDateAhead(parts: seq<string>, after: int, t: int)
    requires Runs(parts) && InWindow(parts, after, t)
    ensures DateAhead(parts, after, YearOf(Day(t)), MonthOf(Day(t)), DateOf(Day(t)))
  {
    hide Matches, FiresAt, Limit, MakeDay, YearOf, MonthOf, DateOf, DayFromYear, Day, At, WeekDay, BeforeLimit,
         HourOf, MinuteOf;
    var (thisYear, y) := (YearOf(Day(after)), YearOf(Day(t)));
    FiresOnAcceptedDate(parts, t);
    LimitYear(after);
    if y < thisYear {
      LaterYearIsLater(t, after);
    }
    if thisYear + 2 < y {
      LaterYearIsLater(Limit(after), t);
    }
    assert y == thisYear || y == thisYear + 1 || y == thisYear + 2;
    if y == thisYear + 2 {
      BeforeLimitExactly(after, MonthOf(Day(t)), DateOf(Day(t)), HourOf(t), MinuteOf(t));
    }
  }

  /** For every expression, the search finds a time exactly when a date that month, day of month and
      weekday accept lies ahead within reach. */
  lemma FoundExactlyWhen(parts: seq<string>, after: int, r: Option<int>)
    requires Runs(parts) && IsNext(parts, after, r)
    ensures r.Some? <==> exists y, m, dt :: DateAhead(parts, after, y, m, dt)
  {
    hide FiresAt, Limit, DateAhead, YearOf, MonthOf, DateOf, Day;
    if r.Some? {
      FoundIsDateAhead(parts, after, r.value);
    } else if y, m, dt :| DateAhead(parts, after, y, m, dt) {
      DateAheadIsFound(parts, after, y, m, dt);
    }
  }

  // ----- every weekday -----

  predicate EveryWeekday(parts: seq<string>)
    requires Runs(parts)
  {
    forall w :: 0 <= w < 7 ==> Matches(w, parts[4], 0, 7)
  }

  /** A day of a common year on which month and day-of-month both accept: `dt`, or the last of the
      month when the field is L. */
  predicate CommonDay(parts: seq<string>, m: int, dt: int)
    requires Runs(parts)
  {
    && 0 <= m < 12 && 1 <= dt <= CommonLength(m)
    && Matches(m + 1, parts[3], 1, 12)
    && (parts[2] == "L" || Matches(dt, parts[2], 1, 31))
  }

  function CommonLength(m: int): int
    requires 0 <= m < 12
  {
    if m == 1 then 28 else MonthLength(1970, m)
  }

  /** The accepted day of month in year y. */
  function DayIn(parts: seq<string>, y: int, m: int, dt: int): int
    requires Runs(parts) && 0 <= m < 12
  {
    if parts[2] == "L" then MonthLength(y, m) else dt
  }

  lemma CommonDayAccepted(parts: seq<string>, y: int, m: int, dt: int)
    requires Runs(parts) && EveryWeekday(parts) && CommonDay(parts, m, dt)
    ensures DateAccepted(parts, y, m, DayIn(parts, y, m, dt))
  {
    hide Matches, MakeDay, WeekDay, IsLeap;
    WeekDayRange(MakeDay(y, m, DayIn(parts, y, m, dt)));
  }

  /** With every weekday accepted, some hour and minute accepted, and some accepted month and day that
      exists in a common year, the search always finds a time, at most 366 days away. */
  lemma Complete(parts: seq<string>, after: int, m: int, dt: int, hour: int, minute: int, r: Option<int>)
    requires Runs(parts) && SomeMinute(parts, hour, minute) && EveryWeekday(parts) && CommonDay(parts, m, dt)
    requires IsNext(parts, after, r)
    ensures r.Some? && after < r.value <= after + 366 * MS_PER_DAY
  {
    hide Matches, EveryWeekday, FiresAt, Limit, MakeDay, MonthLength, YearOf, MonthOf, DateOf, DayFromYear;
    var y := YearOf(Day(after));
    var d0, d1 := DayIn(parts, y, m, dt), DayIn(parts, y + 1, m, dt);
    CommonDayAccepted(parts, y, m, dt);
    CommonDayAccepted(parts, y + 1, m, dt);
    OneYearOn(y, m, dt);
    ThisYearOrNext(parts, after, m, d0, d1, hour, minute, 366, r);
  }

  /** An accepted date of this year, and one of the next at most `days` later, bound the search. */
  lemma ThisYearOrNext(
      parts: seq<string>, after: int, m: int, d0: int, d1: int, hour: int, minute: int, days: int, r: Option<int>)
    requires Runs(parts) && SomeMinute(parts, hour, minute) && IsNext(parts, after, r)
    requires var y := YearOf(Day(after)); DateAccepted(parts, y, m, d0) && DateAccepted(parts, y + 1, m, d1)
    requires var y := YearOf(Day(after)); 366 <= days <= 730 && MakeDay(y + 1, m, d1) - MakeDay(y, m, d0) <= days
    ensures r.Some? && after < r.value <= after + days * MS_PER_DAY
  {
    hide Matches, FiresAt, Limit, MakeDay, MonthLength, YearOf, MonthOf, DateOf, DayFromYear, WeekDay;
    var y := YearOf(Day(after));
    var t0, t1 := At(y, m, d0, hour, minute), At(y + 1, m, d1, hour, minute);
    AcceptedDateFires(parts, y, m, d0, hour, minute);
    AcceptedDateFires(parts, y + 1, m, d1, hour, minute);
    AtDecodes(y, m, d0, hour, minute);
    AtDecodes(y + 1, m, d1, hour, minute);
    LimitSpan(after);
    LaterYearIsLater(after, t1);
    OneYearApart(after, t0);
    if t0 > after {
      assert InWindow(parts, after, t0);
    } else {
      LimitYear(after);
      LaterYearIsLater(t1, Limit(after));
      assert InWindow(parts, after, t1);
    }
  }

  ghost predicate HasCommonDay(parts: seq<string>)
    requires Runs(parts)
  {
    exists m, dt :: CommonDay(parts, m, dt)
  }

  predicate AcceptsLeapDay(parts: seq<string>)
    requires Runs(parts)
  {
    Matches(2, parts[3], 1, 12) && Matches(29, parts[2], 1, 31)
  }

  /** Next year is a leap year; or this one is, and an accepted time of its 29 February is still to
      come; or the year after next is, and this year has reached March. */
  ghost predicate LeapDayAhead(parts: seq<string>, after: int)
    requires Runs(parts)
  {
    var y := YearOf(Day(after));
    || IsLeap(y + 1)
    || (IsLeap(y) && exists hour, minute :: SomeMinute(parts, hour, minute) && after < At(y, 1, 29, hour, minute))
    || (IsLeap(y + 2) && MonthOf(Day(after)) >= 2)
  }

  lemma LeapDayAccepted(parts: seq<string>, y: int)
    requires Runs(parts) && EveryWeekday(parts) && AcceptsLeapDay(parts) && parts[2] != "L" && IsLeap(y)
    ensures DateAccepted(parts, y, 1, 29)
  {
    hide Matches, MakeDay, WeekDay, IsLeap;
    WeekDayRange(MakeDay(y, 1, 29));
  }

  /** An accepted date is one that exists in every year, or 29 February. */
  lemma CommonOrLeapDay(parts: seq<string>, y: int, m: int, dt: int)
    requires Runs(parts) && DateAccepted(parts, y, m, dt)
    ensures HasCommonDay(parts) || (AcceptsLeapDay(parts) && parts[2] != "L" && m == 1 && dt == 29 && IsLeap(y))
  {
    hide Matches, MakeDay, WeekDay, IsLeap;
    assert parts[2] == "L" ==> CommonDay(parts, m, 1);
    assert parts[2] != "L" && dt <= CommonLength(m) ==> CommonDay(parts, m, dt);
  }

  /** With every weekday accepted: a date lies ahead exactly when some hour and minute is accepted, and
      some accepted day exists in every year or is a 29 February within reach. */
  lemma FoundWithEveryWeekday(parts: seq<string>, after: int, r: Option<int>)
    requires Runs(parts) && EveryWeekday(parts) && IsNext(parts, after, r)
    ensures r.Some? <==>
            HasMinute(parts) && (HasCommonDay(parts) || (AcceptsLeapDay(parts) && LeapDayAhead(parts, after)))
  {
    hide Matches, FiresAt, Limit, SomeMinute, EveryWeekday, MakeDay, YearOf, MonthOf, DateOf, Day, At, IsLeap;
    FoundExactlyWhen(parts, after, r);
    if r.Some? {
      var y, m, dt :| DateAhead(parts, after, y, m, dt);
      CommonOrLeapDay(parts, y, m, dt);
      if !HasCommonDay(parts) {
        LeapDayInReach(parts, after, y);
      }
    }
    if HasMinute(parts) && HasCommonDay(parts) {
      var m, dt :| CommonDay(parts, m, dt);
      var y := YearOf(Day(after)) + 1;
      CommonDayAccepted(parts, y, m, dt);
      assert DateAhead(parts, after, y, m, DayIn(parts, y, m, dt));
    } else if HasMinute(parts) && AcceptsLeapDay(parts) && LeapDayAhead(parts, after) {
      LeapDayWithinReach(parts, after);
    }
  }

  lemma LeapDayInReach(parts: seq<string>, after: int, y: int)
    requires Runs(parts) && DateAhead(parts, after, y, 1, 29)
    ensures LeapDayAhead(parts, after)
  {
    hide Matches, DayFromYear, YearOf, MonthOf, DateOf, Day, At, MakeDay, WeekDay;
    LimitIs(after);
    EncodeDecoded(Day(after));
    assert IsLeap(y);
    assert !(IsLeap(YearOf(Day(after))) && IsLeap(YearOf(Day(after)) + 2));
  }

  lemma LeapDayWithinReach(parts: seq<string>, after: int)
    requires Runs(parts) && HasMinute(parts) && EveryWeekday(parts) && AcceptsLeapDay(parts)
    requires LeapDayAhead(parts, after)
    ensures HasCommonDay(parts) || exists y :: DateAhead(parts, after, y, 1, 29)
  {
    hide Matches, MakeDay, YearOf, MonthOf, DateOf, Day, At, IsLeap, EveryWeekday, SomeMinute;
    var y := YearOf(Day(after));
    if parts[2] == "L" {
      assert CommonDay(parts, 1, 1);
    } else if IsLeap(y + 1) {
      LeapDayAccepted(parts, y + 1);
      assert DateAhead(parts, after, y + 1, 1, 29);
    } else if IsLeap(y + 2) && MonthOf(Day(after)) >= 2 {
      LeapDayAccepted(parts, y + 2);
      assert DateAhead(parts, after, y + 2, 1, 29);
    } else {
      LeapDayAccepted(parts, y);
      assert DateAhead(parts, after, y, 1, 29);
    }
  }

  // ----- some weekday -----

  predicate SomeWeekday(parts: seq<string>, w: int)
    requires Runs(parts)
  {
    0 <= w < 7 && Matches(w, parts[4], 0, 7)
  }

  /** Seven dates in a row that exist in every year, all accepted. */
  predicate WeekOfDates(parts: seq<string>, m: int, first: int)
    requires Runs(parts)
  {
    && parts[2] != "L" && 0 <= m < 12 && 1 <= first && first + 6 <= CommonLength(m)
    && Matches(m + 1, parts[3], 1, 12)
    && forall dt :: first <= dt < first + 7 ==> Matches(dt, parts[2], 1, 31)
  }

  /** The one of the seven dates that falls on weekday w in year y. */
  function DateOn(y: int, m: int, first: int, w: int): (dt: int)
    requires 0 <= m < 12 && 0 <= w < 7
    ensures first <= dt < first + 7
  {
    first + (w - WeekDay(MakeDay(y, m, first))) % 7
  }

  lemma DateOnWeekday(y: int, m: int, first: int, w: int)
    requires 0 <= m < 12 && 0 <= w < 7
    ensures WeekDay(MakeDay(y, m, DateOn(y, m, first, w))) == w
  {
    hide DayFromYear, MonthStart;
    var d := MakeDay(y, m, first);
    assert MakeDay(y, m, DateOn(y, m, first, w)) == d + (w - WeekDay(d)) % 7;
  }

  lemma DateOnAccepted(parts: seq<string>, y: int, m: int, first: int, w: int)
    requires Runs(parts) && WeekOfDates(parts, m, first) && SomeWeekday(parts, w)
    ensures DateAccepted(parts, y, m, DateOn(y, m, first, w))
  {
    hide Matches, MakeDay, WeekDay, DateOn, IsLeap;
    DateOnWeekday(y, m, first, w);
  }

  lemma SameWeekday(d: int, e: int)
    requires WeekDay(d) == WeekDay(e) && e - d <= 372
    ensures e - d <= 371
  {
  }

  /** When seven dates in a row are accepted, with some weekday, hour and minute, the search always finds
      a time, at most 371 days away. */
  lemma CompleteOnWeekdays(
      parts: seq<string>, after: int, m: int, first: int, w: int, hour: int, minute: int, r: Option<int>)
    requires Runs(parts) && SomeMinute(parts, hour, minute) && SomeWeekday(parts, w) && WeekOfDates(parts, m, first)
    requires IsNext(parts, after, r)
    ensures r.Some? && after < r.value <= after + 371 * MS_PER_DAY
  {
    hide Matches, FiresAt, Limit, MakeDay, MonthLength, YearOf, MonthOf, DateOf, DayFromYear, WeekDay, DateOn;
    var y := YearOf(Day(after));
    var d0, d1 := DateOn(y, m, first, w), DateOn(y + 1, m, first, w);
    DateOnAccepted(parts, y, m, first, w);
    DateOnAccepted(parts, y + 1, m, first, w);
    DateOnWeekday(y, m, first, w);
    DateOnWeekday(y + 1, m, first, w);
    OneYearOn(y, m, d0);
    DatesApart(y + 1, m, d0, d1);
    SameWeekday(MakeDay(y, m, d0), MakeDay(y + 1, m, d1));
    ThisYearOrNext(parts, after, m, d0, d1, hour, minute, 371, r);
  }

  lemma DatesApart(y: int, m: int, dt: int, du: int)
    requires 0 <= m < 12
    ensures MakeDay(y, m, du) - MakeDay(y, m, dt) == du - dt
  {
  }

  predicate EveryDate(parts: seq<string>)
    requires Runs(parts)
  {
    && parts[2] != "L"
    && (forall m :: 1 <= m <= 12 ==> Matches(m, parts[3], 1, 12))
    && (forall dt :: 1 <= dt <= 31 ==> Matches(dt, parts[2], 1, 31))
  }

  /** When every month and day is accepted, with some weekday, hour and minute, the search always finds a
      time within a week. */
  lemma CompleteWithinAWeek(parts: seq<string>, after: int, w: int, hour: int, minute: int, r: Option<int>)
    requires Runs(parts) && SomeMinute(parts, hour, minute) && SomeWeekday(parts, w) && EveryDate(parts)
    requires IsNext(parts, after, r)
    ensures r.Some? && after < r.value <= after + 7 * MS_PER_DAY
  {
    hide Matches, FiresAt, Limit, MakeDay, MonthLength, YearOf, MonthOf, DateOf, DayFromYear, WeekDay, HourOf, MinuteOf;
    var d := Day(after) + (w - WeekDay(Day(after))) % 7;
    var time := MakeTime(hour, minute, 0);
    WeekdayAhead(Day(after), w);
    DayFires(parts, d, w, hour, minute);
    DayFires(parts, d + 7, w, hour, minute);
    LimitSpan(after);
    var t := d * MS_PER_DAY + time;
    if t > after {
      assert InWindow(parts, after, t);
    } else {
      assert InWindow(parts, after, t + 7 * MS_PER_DAY);
    }
  }

  lemma WeekdayAhead(d: int, w: int)
    requires 0 <= w < 7
    ensures WeekDay(d + (w - WeekDay(d)) % 7) == w && WeekDay(d + (w - WeekDay(d)) % 7 + 7) == w
  {
  }

  lemma DayFires(parts: seq<string>, d: int, w: int, hour: int, minute: int)
    requires Runs(parts) && SomeMinute(parts, hour, minute) && SomeWeekday(parts, w) && EveryDate(parts)
    requires WeekDay(d) == w
    ensures FiresAt(parts, d * MS_PER_DAY + MakeTime(hour, minute, 0))
  {
    hide Matches, FiresAt, MakeDay, YearOf, MonthOf, DateOf, DayFromYear, WeekDay, IsLeap;
    EncodeDecoded(d);
    assert DateAccepted(parts, YearOf(d), MonthOf(d), DateOf(d));
    AcceptedDateFires(parts, YearOf(d), MonthOf(d), DateOf(d), hour, minute);
  }
}
