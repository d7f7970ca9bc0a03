// The JavaScript text functions the scheduler uses: split, join, decimal printing, parseInt and
// Number, on text without blanks, signs other than '-', exponents and radix prefixes.
module JsText {
  import opened Base

  // ----- split and join -----

  /** s.split(sep) */
  function SplitOn(s: string, sep: char): (parts: seq<string>)
    ensures |parts| >= 1
    ensures (sep in s) <==> |parts| >= 2
  {
    if s == "" then [""]
    else
      var rest := SplitOn(s[1..], sep);
      if s[0] == sep then [""] + rest else [[s[0]] + rest[0]] + rest[1..]
  }

  /** parts.join(sep) */
  function Join(parts: seq<string>, sep: char): string {
    if parts == [] then "" else if |parts| == 1 then parts[0] else parts[0] + [sep] + Join(parts[1..], sep)
  }

  lemma {:induction false} SplitAtFirst(a: string, sep: char, s: string)
    requires sep !in a
    ensures SplitOn(a + [sep] + s, sep) == [a] + SplitOn(s, sep)
  {
    var whole := a + [sep] + s;
    if a == "" {
      assert whole[1..] == s;
    } else {
      assert whole[1..] == a[1..] + [sep] + s;
      SplitAtFirst(a[1..], sep, s);
      assert a == [a[0]] + a[1..];
    }
  }

  lemma {:induction false} SplitWithout(a: string, sep: char)
    requires sep !in a
    ensures SplitOn(a, sep) == [a]
  {
    if a != "" {
      SplitWithout(a[1..], sep);
      assert a == [a[0]] + a[1..];
    }
  }

  /** Splitting a joined list gives the list back. */
  lemma {:induction false} SplitJoin(parts: seq<string>, sep: char)
    requires parts != [] && forall i :: 0 <= i < |parts| ==> sep !in parts[i]
    ensures SplitOn(Join(parts, sep), sep) == parts
  {
    if |parts| == 1 {
      SplitWithout(parts[0], sep);
    } else {
      SplitJoin(parts[1..], sep);
      SplitAtFirst(parts[0], sep, Join(parts[1..], sep));
    }
  }

  // ----- decimal numbers -----

  predicate IsDigit(c: char) {
    '0' <= c <= '9'
  }

  predicate AllDigits(s: string) {
    forall i :: 0 <= i < |s| ==> IsDigit(s[i])
  }

  function DigitsValue(s: string): nat
    requires AllDigits(s)
  {
    if s == "" then 0 else DigitsValue(s[..|s| - 1]) * 10 + (s[|s| - 1] as int - '0' as int)
  }

  function Digit(n: nat): char
    requires n < 10
  {
    ('0' as int + n) as char
  }

  /** n.toString() */
  function Show(n: nat): (s: string)
    ensures s != "" && AllDigits(s)
  {
    if n < 10 then [Digit(n)] else Show(n / 10) + [Digit(n % 10)]
  }

  function LeadingDigits(s: string): (d: string)
    ensures AllDigits(d)
  {
    if s != "" && IsDigit(s[0]) then [s[0]] + LeadingDigits(s[1..]) else ""
  }

  lemma {:induction false} LeadingDigitsOf(a: string, s: string)
    requires AllDigits(a) && (s == "" || !IsDigit(s[0]))
    ensures LeadingDigits(a + s) == a
  {
    if a != "" {
      assert (a + s)[1..] == a[1..] + s;
      LeadingDigitsOf(a[1..], s);
      assert a == [a[0]] + a[1..];
    } else {
      assert a + s == s;
    }
  }

  /** parseInt(s); None is NaN. */
  function ParseInt(s: string): Option<int> {
    var negative := s != "" && s[0] == '-';
    var d := LeadingDigits(if negative then s[1..] else s);
    var n: int := DigitsValue(d);
    if d == "" then None else Some(if negative then -n else n)
  }

  /** Number(s); None is NaN. */
  function ToNumber(s: string): Option<int> {
    if AllDigits(s) then Some(DigitsValue(s)) else None
  }

  // ----- numbers as they are written -----

  /** A number written with leading zeros, like 09; every text of digits is one. */
  datatype Numeral = Numeral(zeros: nat, value: nat)

  function Zeros(n: nat): (s: string)
    ensures |s| == n && AllDigits(s)
  {
    if n == 0 then "" else Zeros(n - 1) + "0"
  }

  function Written(n: Numeral): (s: string)
    ensures s != "" && AllDigits(s)
  {
    Zeros(n.zeros) + Show(n.value)
  }

  lemma {:induction false} ZerosValue(n: nat)
    ensures DigitsValue(Zeros(n)) == 0
  {
    if n > 0 {
      ZerosValue(n - 1);
      assert Zeros(n)[..n - 1] == Zeros(n - 1);
    }
  }

  /** Leading zeros do not change the value of a text of digits. */
  lemma {:induction false} WrittenValue(zeros: nat, n: nat)
    ensures DigitsValue(Zeros(zeros) + Show(n)) == n
    decreases n
  {
    ZerosValue(zeros);
    var s := Zeros(zeros) + Show(n);
    if n >= 10 {
      WrittenValue(zeros, n / 10);
      assert s[..|s| - 1] == Zeros(zeros) + Show(n / 10);
    } else {
      assert s[..|s| - 1] == Zeros(zeros);
    }
  }

  /** Every text of digits is a written number. */
  lemma {:induction false} EveryNumeral(s: string) returns (n: Numeral)
    requires s != "" && AllDigits(s)
    ensures Written(n) == s
    decreases |s|
  {
    var last := s[|s| - 1] as int - '0' as int;
    if |s| == 1 {
      n := Numeral(0, last);
      assert s == [Digit(last)];
    } else {
      var front := EveryNumeral(s[..|s| - 1]);
      assert s == Written(front) + [Digit(last)];
      if front.value > 0 {
        n := Numeral(front.zeros, front.value * 10 + last);
        assert Show(n.value) == Show(front.value) + [Digit(last)];
      } else {
        n := Numeral(front.zeros + 1, last);
        assert Zeros(n.zeros) == Zeros(front.zeros) + Show(0);
      }
    }
  }

  /** parseInt reads a written number, leading zeros or not, up to the first character that is no digit. */
  lemma ParsePrefix(n: Numeral, rest: string)
    requires rest == "" || !IsDigit(rest[0])
    ensures ParseInt(Written(n) + rest) == Some(n.value)
  {
    WrittenValue(n.zeros, n.value);
    LeadingDigitsOf(Written(n), rest);
    assert IsDigit((Written(n) + rest)[0]);
  }

  /** The same after a minus sign. */
  lemma ParseMinus(n: Numeral, rest: string)
    requires rest == "" || !IsDigit(rest[0])
    ensures var minus := 0 - n.value; ParseInt("-" + (Written(n) + rest)) == Some(minus)
  {
    WrittenValue(n.zeros, n.value);
    LeadingDigitsOf(Written(n), rest);
    assert ("-" + (Written(n) + rest))[1..] == Written(n) + rest;
  }

  /** parseInt and Number read a written number back. */
  lemma ParseWritten(n: Numeral)
    ensures ParseInt(Written(n)) == Some(n.value) && ToNumber(Written(n)) == Some(n.value)
  {
    ParsePrefix(n, "");
    assert Written(n) + "" == Written(n);
    WrittenValue(n.zeros, n.value);
  }

  lemma ParseShown(n: nat)
    ensures ParseInt(Show(n)) == Some(n) && ToNumber(Show(n)) == Some(n)
  {
    ParseWritten(Numeral(0, n));
    assert Written(Numeral(0, n)) == Show(n);
  }

  /** What is not a number: for parseInt, text without a digit at its start, for Number, text with anything
      but digits in it; nothing at all is 0 for Number. */
  lemma NotANumber(s: string)
    ensures s == "" || s == "-" || (!IsDigit(s[0]) && s[0] != '-') ==> ParseInt(s) == None
    ensures (exists i :: 0 <= i < |s| && !IsDigit(s[i])) ==> ToNumber(s) == None
    ensures ToNumber("") == Some(0)
  {
  }

  // ----- blank-separated fields -----

  /** White space and line terminators of ECMA-262, which trim and \s stand for. */
  predicate IsBlank(c: char) {
    var n := c as int;
    9 <= n <= 13 || n == 32 || n == 160 || n == 5760 || 8192 <= n <= 8202 || n == 8232 || n == 8233
    || n == 8239 || n == 8287 || n == 12288 || n == 65279
  }

  /** The same one by one: tab to carriage return, space, no-break space, the spaces of Unicode, the line and
      paragraph separators, and the byte order mark. */
  const BLANKS: set<int> :=
    {9, 10, 11, 12, 13, 32, 160, 5760, 8192, 8193, 8194, 8195, 8196, 8197, 8198, 8199, 8200, 8201, 8202, 8232, 8233,
     8239, 8287, 12288, 65279}

  lemma BlanksAre(c: char)
    ensures IsBlank(c) <==> c as int in BLANKS
    ensures IsBlank(' ') && IsBlank('\t') && IsBlank('\n') && IsBlank('\r')
  {
    assert '\t' as int == 9 && '\n' as int == 10 && '\r' as int == 13 && ' ' as int == 32;
  }

  /** s.trim().split(/\s+/) for text with at least one field: the maximal runs without blanks. */
  function Fields(s: string): seq<string> {
    if s == "" then []
    else if IsBlank(s[0]) then Fields(s[1..])
    else
      var n := FieldLength(s);
      [s[..n]] + Fields(s[n..])
  }

  function FieldLength(s: string): (n: nat)
    ensures n <= |s|
    ensures forall i :: 0 <= i < n ==> !IsBlank(s[i])
    ensures n < |s| ==> IsBlank(s[n])
  {
    if s == "" || IsBlank(s[0]) then 0 else 1 + FieldLength(s[1..])
  }

  predicate IsField(s: string) {
    s != "" && forall i :: 0 <= i < |s| ==> !IsBlank(s[i])
  }

  predicate AllBlank(s: string) {
    forall i :: 0 <= i < |s| ==> IsBlank(s[i])
  }

  /** Fields with a gap after each, the last gap possibly empty. */
  ghost predicate AreGaps(gaps: seq<string>, parts: seq<string>) {
    && |gaps| == |parts|
    && forall i :: 0 <= i < |gaps| ==> AllBlank(gaps[i]) && (i < |gaps| - 1 ==> gaps[i] != "")
  }

  function Spaced(lead: string, parts: seq<string>, gaps: seq<string>): string
    requires |gaps| == |parts|
    decreases |parts|
  {
    lead + if parts == [] then "" else parts[0] + Spaced(gaps[0], parts[1..], gaps[1..])
  }

  lemma {:induction false} LeadingBlanks(lead: string, s: string)
    requires AllBlank(lead)
    ensures Fields(lead + s) == Fields(s)
  {
    if lead == "" {
      assert lead + s == s;
    } else {
      LeadingBlanks(lead[1..], s);
      assert (lead + s)[1..] == lead[1..] + s;
    }
  }

  /** A field is read up to the blank after it. */
  lemma FirstField(part: string, s: string)
    requires IsField(part) && (s == "" || IsBlank(s[0]))
    ensures Fields(part + s) == [part] + Fields(s)
  {
    var whole := part + s;
    var n := FieldLength(whole);
    assert !IsBlank(whole[0]);
    assert forall i :: 0 <= i < |part| ==> whole[i] == part[i];
    assert s != "" ==> whole[|part|] == s[0];
    assert n == |part|;
    assert whole[..n] == part && whole[n..] == s;
  }

  /** Fields written with any blanks between, before and after them are read back as they are. */
  lemma {:induction false} FieldsSpaced(lead: string, parts: seq<string>, gaps: seq<string>)
    requires AllBlank(lead) && AreGaps(gaps, parts) && forall i :: 0 <= i < |parts| ==> IsField(parts[i])
    ensures Fields(Spaced(lead, parts, gaps)) == parts
    decreases |parts|
  {
    hide AllBlank, IsField;
    if parts == [] {
      LeadingBlanks(lead, "");
    } else {
      var rest := Spaced(gaps[0], parts[1..], gaps[1..]);
      LeadingBlanks(lead, parts[0] + rest);
      FieldsSpaced(gaps[0], parts[1..], gaps[1..]);
      StartsBlank(gaps[0], parts[1..], gaps[1..]);
      FirstField(parts[0], rest);
      assert [parts[0]] + parts[1..] == parts;
    }
  }

  lemma StartsBlank(lead: string, parts: seq<string>, gaps: seq<string>)
    requires |gaps| == |parts| && AllBlank(lead) && (parts != [] ==> lead != "")
    ensures var s := Spaced(lead, parts, gaps); s == "" || IsBlank(s[0])
  {
  }
}
