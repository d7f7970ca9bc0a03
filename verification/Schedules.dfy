// Cron schedules as lists of parts, and what their text means to src/lib/cron-parser.js.
module Schedules {
  import opened JsText
  import opened CronField
  import opened Calendar
  import opened CronSearch

  /** The day-of-month field: parts, or L for the last day of the month. */
  datatype MonthDays = Dates(items: seq<Item>) | LastDay

  /** One list of parts for each of minute, hour, day of month, month and day of week. */
  datatype Schedule = Schedule(minute: seq<Item>, hour: seq<Item>, dom: MonthDays, month: seq<Item>, dow: seq<Item>)

  predicate IsFieldOf(items: seq<Item>) {
    items != [] && forall i :: 0 <= i < |items| ==> Proper(items[i])
  }

  predicate IsSchedule(s: Schedule) {
    && IsFieldOf(s.minute) && IsFieldOf(s.hour) && (s.dom.Dates? ==> IsFieldOf(s.dom.items))
    && IsFieldOf(s.month) && IsFieldOf(s.dow)
  }

  /** The schedule as text, with blanks before the first field and after each. */
  function Text(s: Schedule, lead: string, gaps: seq<string>): string
    requires |gaps| == 5
  {
    Spaced(lead, FieldTexts(s), gaps)
  }

  function DomText(dom: MonthDays): string {
    if dom.LastDay? then "L" else PrintField(dom.items)
  }

  function FieldTexts(s: Schedule): seq<string> {
    [PrintField(s.minute), PrintField(s.hour), DomText(s.dom), PrintField(s.month), PrintField(s.dow)]
  }

  /** The dates a day-of-month field stands for. */
  ghost predicate HasDate(dom: MonthDays, c: Civil)
    requires IsCivil(c) && (dom.Dates? ==> IsFieldOf(dom.items))
  {
    if dom.LastDay? then c.date == MonthLength(c.year, c.month) else DenotesSome(dom.items, c.date, 1, 31)
  }

  lemma {:induction false} ItemIsField(item: Item)
    ensures IsField(Print(item)) && Print(item) != "L" && |Print(item)| >= 1 && Print(item)[0] != 'L'
  {
    match item
    case Any =>
    case Exactly(n) =>
      WrittenIsField(n);
    case Span(lo, hi) =>
      WrittenIsField(lo);
      WrittenIsField(hi);
    case EveryAny(step) =>
      WrittenIsField(step);
    case EveryFrom(lo, step) =>
      WrittenIsField(lo);
      WrittenIsField(step);
    case EverySpan(lo, hi, step) =>
      WrittenIsField(lo);
      WrittenIsField(hi);
      WrittenIsField(step);
  }

  lemma WrittenIsField(n: Numeral)
    ensures IsField(Written(n)) && Written(n)[0] != 'L'
  {
    assert forall i :: 0 <= i < |Written(n)| ==> IsDigit(Written(n)[i]);
  }

  lemma {:induction false} PrintedIsField(items: seq<Item>)
    requires items != []
    ensures IsField(PrintField(items)) && PrintField(items)[0] != 'L'
    decreases |items|
  {
    ItemIsField(items[0]);
    if |items| > 1 {
      PrintedIsField(items[1..]);
      assert PrintAll(items) == [Print(items[0])] + PrintAll(items[1..]);
      PrintAllAt(items);
      assert PrintField(items) == Print(items[0]) + [','] + PrintField(items[1..]);
    } else {
      assert PrintAll(items) == [Print(items[0])] + PrintAll([]);
    }
  }

  lemma DomFires(dom: MonthDays, c: Civil)
    requires IsCivil(c) && (dom.Dates? ==> IsFieldOf(dom.items))
    ensures IsField(DomText(dom)) && StepsTerminate(DomText(dom))
    ensures DayMatches(c, DomText(dom)) <==> HasDate(dom, c)
  {
    hide PrintField, DenotesSome, Matches, StepsTerminate;
    if dom.LastDay? {
      LTerminates();
    } else {
      PrintedIsField(dom.items);
      FieldLanguage(dom.items, c.date, 1, 31);
    }
  }

  lemma LTerminates()
    ensures StepsTerminate("L")
  {
    SplitWithout("L", ',');
  }

  /** The text of a schedule, however it is spaced, splits into its five fields, terminates, and fires exactly
      on the minutes whose month, day, weekday, hour and minute are all in the sets the fields stand for. */
  lemma TextFires(s: Schedule, lead: string, gaps: seq<string>, c: Civil)
    requires IsSchedule(s) && IsCivil(c) && AllBlank(lead) && AreGaps(gaps, FieldTexts(s))
    ensures Fields(Text(s, lead, gaps)) == FieldTexts(s) && Runs(FieldTexts(s))
    ensures Fires(FieldTexts(s), c) <==>
            && DenotesSome(s.month, c.month + 1, 1, 12)
            && HasDate(s.dom, c)
            && DenotesSome(s.dow, if c.weekday == 0 then 7 else c.weekday, 0, 7)
            && DenotesSome(s.hour, c.hour, 0, 23)
            && DenotesSome(s.minute, c.minute, 0, 59)
  {
    hide PrintField, DomText, Spaced, Fields, DenotesSome, HasDate, DayMatches, Matches, StepsTerminate;
    FieldsFire(s, c);
    FieldsSpaced(lead, FieldTexts(s), gaps);
  }

  lemma FieldsFire(s: Schedule, c: Civil)
    requires IsSchedule(s) && IsCivil(c)
    ensures Runs(FieldTexts(s)) && forall i :: 0 <= i < 5 ==> IsField(FieldTexts(s)[i])
    ensures Fires(FieldTexts(s), c) <==>
            && DenotesSome(s.month, c.month + 1, 1, 12)
            && HasDate(s.dom, c)
            && DenotesSome(s.dow, if c.weekday == 0 then 7 else c.weekday, 0, 7)
            && DenotesSome(s.hour, c.hour, 0, 23)
            && DenotesSome(s.minute, c.minute, 0, 59)
  {
    hide PrintField, DomText, DenotesSome, HasDate, DayMatches, Matches, StepsTerminate;
    PrintedIsField(s.minute);
    PrintedIsField(s.hour);
    DomFires(s.dom, c);
    PrintedIsField(s.month);
    PrintedIsField(s.dow);
    FieldLanguage(s.minute, c.minute, 0, 59);
    FieldLanguage(s.hour, c.hour, 0, 23);
    FieldLanguage(s.month, c.month + 1, 1, 12);
    FieldLanguage(s.dow, c.weekday, 0, 7);
  }

  /** L fires exactly on the days before the first of a month. */
  lemma LastDayIsBeforeFirst(t: int)
    ensures IsCivil(Decode(t)) && StepsTerminate("L")
    ensures DayMatches(Decode(t), "L") <==> DateOf(Day(t) + 1) == 1
  {
    hide StepsTerminate, Matches, YearOf, MonthOf, DateOf, Day, MonthLength;
    DecodedIsCivil(t);
    LTerminates();
    NextDay(Day(t));
  }
}
