// matchesField of src/lib/cron-parser.js: the method over text, and the field language it accepts.
module CronField {
  import opened Base
  import opened JsText

  // ----- the method and what it computes -----

  /** Number comparison; None is NaN, which compares false with everything. */
  predicate AtMost(a: Option<int>, b: Option<int>) {
    a.Some? && b.Some? && a.value <= b.value
  }

  /** The values the step loop visits. */
  predicate Visits(start: Option<int>, end: Option<int>, step: Option<int>, v: int)
    requires step.Some? ==> 1 <= step.value
  {
    && AtMost(start, end)
    && (v == start.value || (step.Some? && start.value <= v <= end.value && (v - start.value) % step.value == 0))
  }

  /** The bounds of a stepped part. */
  function StepBounds(range: string, min: int, max: int): (Option<int>, Option<int>) {
    if range == "*" then (Some(min), Some(max))
    else if '-' in range then (ToNumber(SplitOn(range, '-')[0]), ToNumber(SplitOn(range, '-')[1]))
    else (ParseInt(range), Some(max))
  }

  predicate StepTerminates(part: string) {
    '/' in part ==> var step := ParseInt(SplitOn(part, '/')[1]); step.Some? ==> 1 <= step.value
  }

  /** What the source needs to terminate: no step that parses to zero or less. */
  predicate StepsTerminate(expr: string) {
    forall i :: 0 <= i < |SplitOn(expr, ',')| ==> StepTerminates(SplitOn(expr, ',')[i])
  }

  predicate PartMatches(v: int, part: string, min: int, max: int)
    requires StepTerminates(part)
  {
    if part == "*" then true
    else if '/' in part then
      var (start, end) := StepBounds(SplitOn(part, '/')[0], min, max);
      Visits(start, end, ParseInt(SplitOn(part, '/')[1]), v)
    else if '-' in part then
      var ends := SplitOn(part, '-');
      AtMost(ToNumber(ends[0]), Some(v)) && AtMost(Some(v), ToNumber(ends[1]))
    else ParseInt(part) == Some(v)
  }

  /** In the day-of-week field Sunday, 0, is matched as 7. */
  function DayValue(v: int, max: int): int {
    if max == 7 && v == 0 then 7 else v
  }

  predicate Matches(value: int, expr: string, min: int, max: int)
    requires StepsTerminate(expr)
  {
    var parts := SplitOn(expr, ',');
    exists i :: 0 <= i < |parts| && PartMatches(DayValue(value, max), parts[i], min, max)
  }

  lemma StepOnward(start: int, i: int, step: int, v: int)
    requires 1 <= step && i <= v && (i - start) % step == 0
    ensures (v - start) % step == 0 <==> (v - i) % step == 0
    ensures (i + step - start) % step == 0
    ensures (v - i) % step == 0 && i < v ==> i + step <= v
  {
    var k := (i - start) / step;
    assert i - start == k * step;
    var q := (v - i) / step;
    assert v - i == q * step + (v - i) % step;
    assert v - start == (q + k) * step + (v - i) % step by {
      assert (q + k) * step == q * step + k * step;
    }
    Quotient(v - start, step, q + k, (v - i) % step);
    assert i + step - start == (k + 1) * step by {
      assert (k + 1) * step == k * step + step;
    }
    Quotient(i + step - start, step, k + 1, 0);
    if (v - i) % step == 0 && i < v {
      assert q * step > 0;
      assert q >= 1;
      assert q * step >= step;
    }
  }

  /** for (let i = start; i <= end; i += stepNum) if (i === value) return true */
  method StepLoop(value: int, start: Option<int>, end: Option<int>, step: Option<int>) returns (hit: bool)
    requires step.Some? ==> 1 <= step.value
    ensures hit == Visits(start, end, step, value)
  {
    var i := start;
    while AtMost(i, end)
      invariant i.Some? ==> start.Some? && start.value <= i.value
      invariant i.None? ==> start.None? || step.None?
      invariant i != start ==> AtMost(start, end)
      invariant i.Some? && i != start ==> step.Some? && (i.value - start.value) % step.value == 0
      invariant i != start ==> value != start.value
      invariant i.Some? && step.Some? && start.value <= value < i.value ==> (value - start.value) % step.value != 0
      decreases if AtMost(i, end) then 1 + end.value - i.value else 0
    {
      if i == Some(value) {
        return true;
      }
      if step.Some? {
        if i.value < value {
          StepOnward(start.value, i.value, step.value, value);
        } else {
          StepOnward(start.value, i.value, step.value, i.value);
        }
        i := Some(i.value + step.value);
      } else {
        i := None;
      }
    }
    return false;
  }

  method MatchesField(value: int, expr: string, min: int, max: int) returns (r: bool)
    requires StepsTerminate(expr)
    ensures r == Matches(value, expr, min, max)
  {
    var v := value;
    if max == 7 && value == 0 {
      v := 7;
    }
    var parts := SplitOn(expr, ',');
    var k := 0;
    while k < |parts|
      invariant 0 <= k <= |parts|
      invariant forall i :: 0 <= i < k ==> !PartMatches(v, parts[i], min, max)
    {
      var part := parts[k];
      if part == "*" {
        return true;
      } else if '/' in part {
        var halves := SplitOn(part, '/');
        var range, stepNum := halves[0], ParseInt(halves[1]);
        var start, end := Some(min), Some(max);
        if range != "*" {
          if '-' in range {
            var ends := SplitOn(range, '-');
            start, end := ToNumber(ends[0]), ToNumber(ends[1]);
          } else {
            start := ParseInt(range);
          }
        }
        assert StepTerminates(parts[k]);
        var hit := StepLoop(v, start, end, stepNum);
        if hit {
          return true;
        }
      } else if '-' in part {
        var ends := SplitOn(part, '-');
        if AtMost(ToNumber(ends[0]), Some(v)) && AtMost(Some(v), ToNumber(ends[1])) {
          return true;
        }
      } else if ParseInt(part) == Some(v) {
        return true;
      }
      k := k + 1;
    }
    return false;
  }

  // ----- the field language -----

  datatype Item =
    | Any
    | Exactly(n: Numeral)
    | Span(lo: Numeral, hi: Numeral)
    | EveryAny(step: Numeral)
    | EveryFrom(lo: Numeral, step: Numeral)
    | EverySpan(lo: Numeral, hi: Numeral, step: Numeral)

  predicate Proper(item: Item) {
    match item
    case EveryAny(step) => 1 <= step.value
    case EveryFrom(_, step) => 1 <= step.value
    case EverySpan(_, _, step) => 1 <= step.value
    case _ => true
  }

  function Print(item: Item): string {
    match item
    case Any => "*"
    case Exactly(n) => Written(n)
    case Span(lo, hi) => Written(lo) + "-" + Written(hi)
    case EveryAny(step) => "*" + "/" + Written(step)
    case EveryFrom(lo, step) => Written(lo) + "/" + Written(step)
    case EverySpan(lo, hi, step) => Written(lo) + "-" + Written(hi) + "/" + Written(step)
  }

  function PrintAll(items: seq<Item>): seq<string> {
    if items == [] then [] else [Print(items[0])] + PrintAll(items[1..])
  }

  function PrintField(items: seq<Item>): string {
    Join(PrintAll(items), ',')
  }

  /** The set a part stands for, within the bounds of its field. */
  predicate Denotes(item: Item, v: int, min: int, max: int)
    requires Proper(item)
  {
    match item
    case Any => true
    case Exactly(n) => v == n.value
    case Span(lo, hi) => lo.value <= v <= hi.value
    case EveryAny(step) => min <= v <= max && (v - min) % step.value == 0
    case EveryFrom(lo, step) => lo.value <= v <= max && (v - lo.value) % step.value == 0
    case EverySpan(lo, hi, step) => lo.value <= v <= hi.value && (v - lo.value) % step.value == 0
  }

  lemma DigitsOnly(n: Numeral)
    ensures ',' !in Written(n) && '/' !in Written(n) && '-' !in Written(n) && '*' !in Written(n) && Written(n) != "*"
  {
    assert forall c :: c in Written(n) ==> IsDigit(c);
    assert IsDigit(Written(n)[0]);
  }

  lemma SpanText(lo: Numeral, hi: Numeral)
    ensures var s := Written(lo) + "-" + Written(hi);
            ',' !in s && '/' !in s && '-' in s && s != "*" && SplitOn(s, '-') == [Written(lo), Written(hi)]
  {
    DigitsOnly(lo);
    DigitsOnly(hi);
    SplitAtFirst(Written(lo), '-', Written(hi));
    SplitWithout(Written(hi), '-');
    assert (Written(lo) + "-" + Written(hi))[|Written(lo)|] == '-';
  }

  lemma StepText(range: string, step: Numeral)
    requires ',' !in range && '/' !in range
    ensures var s := range + "/" + Written(step);
            ',' !in s && '/' in s && s != "*" && SplitOn(s, '/') == [range, Written(step)]
  {
    DigitsOnly(step);
    SplitAtFirst(range, '/', Written(step));
    SplitWithout(Written(step), '/');
    assert (range + "/" + Written(step))[|range|] == '/';
  }

  ghost predicate Accepts(item: Item, v: int, min: int, max: int)
    requires Proper(item)
  {
    && ',' !in Print(item) && StepTerminates(Print(item))
    && (PartMatches(v, Print(item), min, max) <==> Denotes(item, v, min, max))
  }

  lemma PlainItem(item: Item, v: int, min: int, max: int)
    requires item.Any? || item.Exactly? || item.Span?
    ensures Accepts(item, v, min, max)
  {
    match item
    case Any =>
    case Exactly(n) =>
      DigitsOnly(n);
      ParseWritten(n);
    case Span(lo, hi) =>
      SpanText(lo, hi);
      ParseWritten(lo);
      ParseWritten(hi);
  }

  /** The text of a stepped part, taken apart. */
  lemma SteppedPart(range: string, step: Numeral, v: int, min: int, max: int)
    requires ',' !in range && '/' !in range && 1 <= step.value
    ensures var s := range + "/" + Written(step);
            && ',' !in s && StepTerminates(s)
            && (PartMatches(v, s, min, max) <==>
                  Visits(StepBounds(range, min, max).0, StepBounds(range, min, max).1, Some(step.value), v))
  {
    StepText(range, step);
    ParseWritten(step);
  }

  /** A step loop accepts v exactly when start <= v <= end and (v - start) mod step = 0. */
  lemma VisitsProgression(start: int, end: int, step: int, v: int)
    requires 1 <= step
    ensures Visits(Some(start), Some(end), Some(step), v) <==> start <= v <= end && (v - start) % step == 0
  {
  }

  lemma EveryAnyItem(step: Numeral, v: int, min: int, max: int)
    requires 1 <= step.value
    ensures Accepts(EveryAny(step), v, min, max)
  {
    SteppedPart("*", step, v, min, max);
    VisitsProgression(min, max, step.value, v);
  }

  lemma EveryFromItem(lo: Numeral, step: Numeral, v: int, min: int, max: int)
    requires 1 <= step.value
    ensures Accepts(EveryFrom(lo, step), v, min, max)
  {
    DigitsOnly(lo);
    ParseWritten(lo);
    SteppedPart(Written(lo), step, v, min, max);
    VisitsProgression(lo.value, max, step.value, v);
  }

  lemma EverySpanItem(lo: Numeral, hi: Numeral, step: Numeral, v: int, min: int, max: int)
    requires 1 <= step.value
    ensures Accepts(EverySpan(lo, hi, step), v, min, max)
  {
    SpanText(lo, hi);
    ParseWritten(lo);
    ParseWritten(hi);
    SteppedPart(Written(lo) + "-" + Written(hi), step, v, min, max);
    VisitsProgression(lo.value, hi.value, step.value, v);
  }

  /** A printed part terminates, contains no comma, and matches exactly the set it stands for. */
  lemma ItemLanguage(item: Item, v: int, min: int, max: int)
    requires Proper(item)
    ensures Accepts(item, v, min, max)
  {
    match item
    case EveryAny(step) => EveryAnyItem(step, v, min, max);
    case EveryFrom(lo, step) => EveryFromItem(lo, step, v, min, max);
    case EverySpan(lo, hi, step) => EverySpanItem(lo, hi, step, v, min, max);
    case _ => PlainItem(item, v, min, max);
  }

  ghost predicate AllProper(items: seq<Item>) {
    forall i :: 0 <= i < |items| ==> Proper(items[i])
  }

  ghost predicate DenotesSome(items: seq<Item>, v: int, min: int, max: int)
    requires AllProper(items)
  {
    exists i :: 0 <= i < |items| && Denotes(items[i], v, min, max)
  }

  lemma {:induction false} PrintAllAt(items: seq<Item>)
    ensures |PrintAll(items)| == |items|
    ensures forall i :: 0 <= i < |items| ==> PrintAll(items)[i] == Print(items[i])
  {
    if items != [] {
      PrintAllAt(items[1..]);
    }
  }

  lemma FieldText(items: seq<Item>)
    requires items != [] && AllProper(items)
    ensures SplitOn(PrintField(items), ',') == PrintAll(items) && StepsTerminate(PrintField(items))
  {
    PrintAllAt(items);
    forall i | 0 <= i < |items|
      ensures ',' !in PrintAll(items)[i] && StepTerminates(PrintAll(items)[i])
    {
      ItemLanguage(items[i], 0, 0, 0);
    }
    SplitJoin(PrintAll(items), ',');
  }

  /** For every field (a list of *, values, ranges and stepped ranges) written as text, matchesField on
      the text is membership in the set the field stands for, with Sunday as 7. */
  lemma FieldLanguage(items: seq<Item>, value: int, min: int, max: int)
    requires items != [] && AllProper(items)
    ensures StepsTerminate(PrintField(items))
    ensures Matches(value, PrintField(items), min, max) <==> DenotesSome(items, DayValue(value, max), min, max)
  {
    FieldText(items);
    PrintAllAt(items);
    var v := DayValue(value, max);
    forall i | 0 <= i < |items|
      ensures PartMatches(v, PrintAll(items)[i], min, max) <==> Denotes(items[i], v, min, max)
    {
      ItemLanguage(items[i], v, min, max);
    }
  }

  /** In the day-of-week field no part that names days only up to 6 matches Sunday: a literal 0 never
      does, and neither does 0-6. */
  lemma SundayIsSevenOnly(lo: Numeral, hi: Numeral, zero: Numeral, day: int)
    requires hi.value <= 6 && zero.value == 0 && 0 <= day <= 6
    ensures StepTerminates(Print(Span(lo, hi))) && StepTerminates(Print(Exactly(zero)))
    ensures !PartMatches(DayValue(0, 7), Print(Span(lo, hi)), 0, 7)
    ensures !PartMatches(DayValue(day, 7), Print(Exactly(zero)), 0, 7)
  {
    ItemLanguage(Span(lo, hi), DayValue(0, 7), 0, 7);
    ItemLanguage(Exactly(zero), DayValue(day, 7), 0, 7);
  }

  /** An open end of a range is 0: -9 stands for 0-9, and 9- for nothing above 0. */
  lemma OpenRanges(n: Numeral, v: int, min: int, max: int)
    ensures StepTerminates("-" + Written(n)) && StepTerminates(Written(n) + "-")
    ensures PartMatches(v, "-" + Written(n), min, max) <==> 0 <= v <= n.value
    ensures PartMatches(v, Written(n) + "-", min, max) <==> n.value <= v <= 0
  {
    DigitsOnly(n);
    ParseWritten(n);
    NotANumber("");
    SplitAtFirst("", '-', Written(n));
    SplitWithout(Written(n), '-');
    assert "" + "-" + Written(n) == "-" + Written(n);
    SplitAtFirst(Written(n), '-', "");
    SplitWithout("", '-');
    assert Written(n) + "-" + "" == Written(n) + "-";
    assert (Written(n) + "-")[|Written(n)|] == '-' && ("-" + Written(n))[0] == '-';
  }

  /** Only the first two pieces of a range count: 1-5-9 is 1-5. */
  lemma LaterPiecesIgnored(lo: Numeral, hi: Numeral, tail: string, v: int, min: int, max: int)
    requires '/' !in tail
    ensures var part := Written(lo) + "-" + (Written(hi) + "-" + tail);
            StepTerminates(part) && (PartMatches(v, part, min, max) <==> lo.value <= v <= hi.value)
  {
    DigitsOnly(lo);
    DigitsOnly(hi);
    ParseWritten(lo);
    ParseWritten(hi);
    SplitAtFirst(Written(lo), '-', Written(hi) + "-" + tail);
    SplitAtFirst(Written(hi), '-', tail);
    assert (Written(lo) + "-" + (Written(hi) + "-" + tail))[|Written(lo)|] == '-';
  }
}
