// getNextFireTime of src/lib/cron-parser.js: a minute-by-minute search over UTC times in milliseconds.
module CronSearch {
  import opened Base
  import opened JsText
  import opened CronField
  import opened Calendar

  // ----- what a schedule means -----

  /** The five fields, in the order of the expression: minute, hour, day of month, month, day of week. */
  predicate Runs(parts: seq<string>) {
    |parts| >= 5 && forall k :: 0 <= k < 5 ==> StepsTerminate(parts[k])
  }

  predicate DayMatches(c: Civil, dom: string)
    requires IsCivil(c) && StepsTerminate(dom)
  {
    if dom == "L" then c.date == MonthLength(c.year, c.month) else Matches(c.date, dom, 1, 31)
  }

  /** All five fields accept; day of month and day of week are both required. */
  predicate Fires(parts: seq<string>, c: Civil)
    requires Runs(parts) && IsCivil(c)
  {
    && Matches(c.month + 1, parts[3], 1, 12)
    && DayMatches(c, parts[2])
    && Matches(c.weekday, parts[4], 0, 7)
    && Matches(c.hour, parts[1], 0, 23)
    && Matches(c.minute, parts[0], 0, 59)
  }

  /** A minute of the calendar on which the schedule fires. */
  predicate FiresAt(parts: seq<string>, t: int)
    requires Runs(parts)
  {
    DecodedIsCivil(t);
    t % MS_PER_MINUTE == 0 && Fires(parts, Decode(t))
  }

  /** The same instant of the year after next, where the search gives up. */
  function Limit(after: int): int {
    WithFullYear(after, YearOf(Day(after)) + 2)
  }

  predicate InWindow(parts: seq<string>, after: int, t: int)
    requires Runs(parts)
  {
    after < t < Limit(after) && FiresAt(parts, t)
  }

  /** r is the least firing minute after `after` and before the limit; None when there is none. */
  ghost predicate IsNext(parts: seq<string>, after: int, r: Option<int>)
    requires Runs(parts)
  {
    match r
    case Some(t) => InWindow(parts, after, t) && forall s :: InWindow(parts, after, s) ==> t <= s
    case None => forall s :: !InWindow(parts, after, s)
  }

  /** The same for the text of an expression and the validator's answer. */
  ghost predicate IsNextFireTime(expression: string, valid: bool, after: int, r: Option<int>) {
    if valid && |Fields(expression)| >= 5
    then Runs(Fields(expression)) && IsNext(Fields(expression), after, r)
    else r == None
  }

  // ----- the search -----

  method MatchesDayOfMonth(t: int, expr: string) returns (r: bool)
    requires StepsTerminate(expr)
    ensures IsCivil(Decode(t)) && r == DayMatches(Decode(t), expr)
  {
    DecodedIsCivil(t);
    var day := DateOf(Day(t));
    var lastDay := DateOf(MakeDay(YearOf(Day(t)), MonthOf(Day(t)) + 1, 0));
    LastDayIsMonthLength(YearOf(Day(t)), MonthOf(Day(t)));
    if expr == "L" {
      return day == lastDay;
    }
    r := MatchesField(day, expr, 1, 31);
  }

  method MatchesAll(t: int, parts: seq<string>) returns (r: bool)
    requires Runs(parts) && t % MS_PER_MINUTE == 0
    ensures r == FiresAt(parts, t)
  {
    hide Matches, DayMatches, YearOf, MonthOf, DateOf, WeekDay, HourOf, MinuteOf, Day;
    DecodedIsCivil(t);
    r := MatchesField(MonthOf(Day(t)) + 1, parts[3], 1, 12);
    if r {
      r := MatchesDayOfMonth(t, parts[2]);
    }
    if r {
      r := MatchesField(WeekDay(Day(t)), parts[4], 0, 7);
    }
    if r {
      r := MatchesField(HourOf(t), parts[1], 0, 23);
    }
    if r {
      r := MatchesField(MinuteOf(t), parts[0], 0, 59);
    }
  }

  /** The window is 730 or 731 days long. */
  lemma LimitSpan(after: int)
    ensures after + 730 * MS_PER_DAY <= Limit(after) <= after + 731 * MS_PER_DAY
  {
    hide YearOf, MonthOf, DateOf, MakeDay, DayFromYear, MonthLength, HourOf, MinuteOf, WithinMinute;
    var d := Day(after);
    var (y, m, dt) := (YearOf(d), MonthOf(d), DateOf(d));
    EncodeDecoded(d);
    TwoYearsOn(y, m, dt);
    assert after == d * MS_PER_DAY + TimeWithinDay(after);
  }

  lemma TwoYearsOn(y: int, m: int, dt: int)
    requires 0 <= m < 12
    ensures 730 <= MakeDay(y + 2, m, dt) - MakeDay(y, m, dt) <= 731
  {
    hide DayFromYear, IsLeap;
    YearLength(y);
    YearLength(y + 1);
    LeapYearsApart(y);
  }

  lemma LeapYearsApart(y: int)
    ensures !(IsLeap(y) && IsLeap(y + 1)) && !(IsLeap(y) && IsLeap(y + 2)) && !(IsLeap(y + 1) && IsLeap(y + 2))
  {
  }

  lemma FiresOnMinutesOnly(parts: seq<string>, minute: int)
    requires Runs(parts) && minute % MS_PER_MINUTE == 0
    ensures forall t :: minute < t < minute + MS_PER_MINUTE ==> !FiresAt(parts, t)
  {
    hide Fires, Decode;
  }

  method GetNextFireTime(expression: string, valid: bool, after: int) returns (r: Option<int>, ghost rounds: nat)
    requires valid && |Fields(expression)| >= 5 ==> Runs(Fields(expression))
    ensures IsNextFireTime(expression, valid, after, r)
    ensures rounds <= 731 * 1440
    ensures r.Some? ==> IsCivil(Decode(StartOfMinute(after) + MS_PER_MINUTE))
    ensures r.Some? ==> Decode(r.value) == Ticks(Decode(StartOfMinute(after) + MS_PER_MINUTE), rounds)
  {
    hide Runs, FiresAt, Decode, Ticks, WithFullYear, StartOfMinute, WithMinutes, MinuteOf, YearOf, Day;
    rounds := 0;
    if !valid {
      return None, 0;
    }
    var parts := Fields(expression);
    if |parts| < 5 {
      return None, 0;
    }
    StartOfMinuteRounds(after);
    LimitSpan(after);
    var candidate := StartOfMinute(after);
    ghost var first := candidate + MS_PER_MINUTE;
    FiresOnMinutesOnly(parts, candidate);
    NextMinuteAdds(candidate);
    candidate := WithMinutes(candidate, MinuteOf(candidate) + 1);
    var maxDate := WithFullYear(after, YearOf(Day(after)) + 2);
    while candidate < maxDate
      invariant candidate % MS_PER_MINUTE == 0 && candidate == first + rounds * MS_PER_MINUTE
      invariant candidate < maxDate + MS_PER_MINUTE
      invariant forall t :: after < t < candidate ==> !FiresAt(parts, t)
      decreases maxDate - candidate
    {
      DecodedIsCivil(candidate);
      MinutesAreTicks(first, rounds);
      var hit := MatchesAll(candidate, parts);
      if hit {
        return Some(candidate), rounds;
      }
      FiresOnMinutesOnly(parts, candidate);
      NextMinuteAdds(candidate);
      candidate := WithMinutes(candidate, MinuteOf(candidate) + 1);
      rounds := rounds + 1;
    }
    r := None;
  }

  // ----- enumeration -----

  /** Restarting anywhere before the answer finds the same answer, if it finds one. */
  lemma SameNext(parts: seq<string>, a: int, b: int, t: int, u: int)
    requires Runs(parts) && IsNext(parts, a, Some(t)) && IsNext(parts, b, Some(u)) && a <= b < t
    ensures t == u
  {
    hide FiresAt, Limit;
    if t < Limit(b) {
      assert InWindow(parts, b, t);
    }
    assert u <= t;
    assert InWindow(parts, a, u);
  }

  /** A restart before the answer t gives t again exactly when t still lies before the new limit, and null
      otherwise: the limit is not monotone, since two years after 29 February is 1 March. */
  lemma RestartGives(parts: seq<string>, a: int, b: int, t: int, r: Option<int>)
    requires Runs(parts) && IsNext(parts, a, Some(t)) && IsNext(parts, b, r) && a <= b < t
    ensures r == if t < Limit(b) then Some(t) else None
  {
    hide FiresAt, Limit;
    assert t < Limit(b) ==> InWindow(parts, b, t);
    if r.Some? {
      SameNext(parts, a, b, t, r.value);
    }
  }

  /** Each element is the answer of a search from the one before it, the first of one from `a`. */
  ghost predicate Iterates(parts: seq<string>, a: int, ts: seq<int>)
    requires Runs(parts)
    decreases |ts|
  {
    ts != [] ==> IsNext(parts, a, Some(ts[0])) && Iterates(parts, ts[0], ts[1..])
  }

  /** Iterating the search lists the firing minutes up to its last answer in order: every one, and
      nothing else. */
  lemma {:induction false} IterationListsAll(parts: seq<string>, a: int, ts: seq<int>)
    requires Runs(parts) && ts != [] && Iterates(parts, a, ts)
    ensures forall i, j :: 0 <= i < j < |ts| ==> a < ts[i] < ts[j]
    ensures a < ts[0]
    ensures forall s :: a < s <= ts[|ts| - 1] ==> (FiresAt(parts, s) <==> s in ts)
    decreases |ts|
  {
    hide FiresAt, Limit;
    if |ts| > 1 {
      IterationListsAll(parts, ts[0], ts[1..]);
      assert ts[1..][|ts| - 2] == ts[|ts| - 1];
    }
    forall s | a < s <= ts[|ts| - 1]
      ensures FiresAt(parts, s) <==> s in ts
    {
      assert s in ts <==> s == ts[0] || s in ts[1..];
      assert s < ts[0] ==> (InWindow(parts, a, s) <==> FiresAt(parts, s));
    }
  }
}
