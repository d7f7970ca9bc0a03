// Valid cron expressions with later matches for which the search of src/lib/cron-parser.js gives null.
module CronWitnesses {
  import opened Base
  import opened JsText
  import opened CronField
  import opened Calendar
  import opened CronSearch
  import opened Schedules
  import opened CronCompleteness

  function Only(n: nat): Item {
    Exactly(Numeral(0, n))
  }

  /** Midnight of one date of the year, on some weekdays. */
  function Yearly(dom: nat, month: nat, dow: seq<Item>): Schedule {
    Schedule([Only(0)], [Only(0)], Dates([Only(dom)]), [Only(month)], dow)
  }

  lemma OneValue(n: nat, v: int, min: int, max: int)
    ensures StepsTerminate(PrintField([Only(n)]))
    ensures Matches(v, PrintField([Only(n)]), min, max) <==> DayValue(v, max) == n
  {
    FieldLanguage([Only(n)], v, min, max);
    var w := DayValue(v, max);
    assert DenotesSome([Only(n)], w, min, max) <==> Denotes([Only(n)][0], w, min, max);
  }

  lemma YearlyFields(dom: nat, month: nat, dow: seq<Item>)
    requires IsFieldOf(dow)
    ensures var parts := FieldTexts(Yearly(dom, month, dow));
            && Runs(parts) && parts[2] != "L" && parts[4] == PrintField(dow)
            && (forall v :: Matches(v, parts[3], 1, 12) <==> v == month)
            && (forall v :: Matches(v, parts[2], 1, 31) <==> v == dom)
            && (forall hour, minute :: SomeMinute(parts, hour, minute) <==> hour == 0 && minute == 0)
  {
    hide PrintField, Matches, StepsTerminate, DenotesSome, DayFromYear, MakeDay, At, YearOf, MonthOf, DateOf;
    var s := Yearly(dom, month, dow);
    FieldsFire(s, Civil(2024, 2, 1, 0, 0, 0));
    PrintedIsField(s.dom.items);
    assert FieldTexts(s)[1] == PrintField(s.hour) && FieldTexts(s)[2] == PrintField(s.dom.items);
    assert FieldTexts(s)[0] == PrintField(s.minute) && FieldTexts(s)[3] == PrintField(s.month);
    forall v
      ensures Matches(v, PrintField(s.month), 1, 12) <==> v == month
      ensures Matches(v, PrintField(s.dom.items), 1, 31) <==> v == dom
      ensures Matches(v, PrintField(s.hour), 0, 23) <==> v == 0
      ensures Matches(v, PrintField(s.minute), 0, 59) <==> v == 0
    {
      OneValue(month, v, 1, 12);
      OneValue(dom, v, 1, 31);
      OneValue(0, v, 0, 23);
      OneValue(0, v, 0, 59);
    }
  }

  // ----- 0 0 29 2 * -----

  const LEAP_DAYS := Yearly(29, 2, [Any])

  lemma AnyWeekday()
    ensures Runs(FieldTexts(LEAP_DAYS)) && EveryWeekday(FieldTexts(LEAP_DAYS))
  {
    hide PrintField, Matches, DenotesSome;
    YearlyFields(29, 2, [Any]);
    forall w | 0 <= w < 7
      ensures Matches(w, PrintField([Any]), 0, 7)
    {
      FieldLanguage([Any], w, 0, 7);
      AnyDenotesAll(DayValue(w, 7), 0, 7);
    }
  }

  lemma AnyDenotesAll(v: int, min: int, max: int)
    ensures DenotesSome([Any], v, min, max)
  {
    assert Denotes([Any][0], v, min, max);
  }

  /** 0 0 29 2 * searched from 1 March 2024 gives null, although 29 February 2028 matches: the result is
      null for an expression that is valid and has later matches. */
  lemma LeapDayBeyondLimit(r: Option<int>)
    requires Runs(FieldTexts(LEAP_DAYS)) && IsNext(FieldTexts(LEAP_DAYS), At(2024, 2, 1, 0, 0), r)
    ensures r == None
    ensures FiresAt(FieldTexts(LEAP_DAYS), At(2028, 1, 29, 0, 0))
    ensures At(2024, 2, 1, 0, 0) < At(2028, 1, 29, 0, 0)
  {
    hide PrintField, Matches, FiresAt, Limit, DayFromYear, YearOf, MonthOf, DateOf, MakeDay, Day, WeekDay;
    var parts := FieldTexts(LEAP_DAYS);
    var after := At(2024, 2, 1, 0, 0);
    YearlyFields(29, 2, [Any]);
    AnyWeekday();
    LeapDayAccepted(parts, 2028);
    AcceptedDateFires(parts, 2028, 1, 29, 0, 0);
    AtDecodes(2024, 2, 1, 0, 0);
    AtDecodes(2028, 1, 29, 0, 0);
    LaterYearIsLater(after, At(2028, 1, 29, 0, 0));
    DatesInOrder(2024, 1, 29, 2, 1);
    assert !HasCommonDay(parts);
    assert !LeapDayAhead(parts, after);
    FoundWithEveryWeekday(parts, after, r);
  }

  // ----- 0 0 1 1 1 -----

  const NEW_YEAR_MONDAYS := Yearly(1, 1, [Only(1)])

  /** 1 January is a Wednesday in 2025, a Thursday in 2026 and a Monday in 2029. */
  lemma NewYearWeekdays()
    ensures WeekDay(MakeDay(2025, 0, 1)) == 3 && WeekDay(MakeDay(2026, 0, 1)) == 4 && WeekDay(MakeDay(2029, 0, 1)) == 1
  {
    hide DayFromYear;
    FormulaAddsYears(2025);
    FormulaAddsYears(2026);
    FormulaAddsYears(2029);
  }

  /** 0 0 1 1 1 searched from 2 January 2024 gives null, although 1 January 2029 is a Monday. */
  lemma NewYearMondayBeyondLimit(r: Option<int>)
    requires Runs(FieldTexts(NEW_YEAR_MONDAYS)) && IsNext(FieldTexts(NEW_YEAR_MONDAYS), At(2024, 0, 2, 0, 0), r)
    ensures r == None
    ensures FiresAt(FieldTexts(NEW_YEAR_MONDAYS), At(2029, 0, 1, 0, 0))
    ensures At(2024, 0, 2, 0, 0) < At(2029, 0, 1, 0, 0)
  {
    hide PrintField, Matches, FiresAt, Limit, DayFromYear, YearOf, MonthOf, DateOf, MakeDay, Day, WeekDay, BeforeLimit;
    var parts := FieldTexts(NEW_YEAR_MONDAYS);
    var after := At(2024, 0, 2, 0, 0);
    YearlyFields(1, 1, [Only(1)]);
    forall w | 0 <= w < 7
      ensures Matches(w, parts[4], 0, 7) <==> w == 1
    {
      OneValue(1, w, 0, 7);
    }
    NewYearWeekdays();
    AcceptedDateFires(parts, 2029, 0, 1, 0, 0);
    AtDecodes(2024, 0, 2, 0, 0);
    AtDecodes(2029, 0, 1, 0, 0);
    LaterYearIsLater(after, At(2029, 0, 1, 0, 0));
    DatesInOrder(2024, 0, 1, 0, 2);
    assert forall y, m, dt :: !DateAhead(parts, after, y, m, dt);
    FoundExactlyWhen(parts, after, r);
  }
}
