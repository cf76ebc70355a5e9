/** The one text interface between the kernel module and the monitor: the runtime_watchdog
    attribute as the driver prints it, and the recovery counter as the monitor parses it. */
module WatchdogText {
  import opened Policy
  import Bits

  const U64 := 0x1_0000_0000_0000_0000

  // ---------- printing ----------

  function Digit(d: nat): char
    requires d < 10
  {
    "0123456789"[d]
  }

  /** %u */
  function Decimal(n: nat): (s: string)
    ensures s != ""
  {
    if n < 10 then [Digit(n)] else Decimal(n / 10) + [Digit(n % 10)]
  }

  /** %lld */
  function Signed(n: int): string {
    if n < 0 then "-" + Decimal(-n) else Decimal(n)
  }

  const ENABLED := "enabled="
  const RECOVERIES := "recoveries="
  const SEPARATED := " recoveries="
  const REPORTS := " reports="
  const ERRORS := " report_errors="

  function Line(enabled: bool, recoveries: Bits.u32, reports: int, errors: Bits.u32): string {
    ENABLED + Decimal(if enabled then 1 else 0) + SEPARATED + Decimal(recoveries)
    + REPORTS + Signed(reports) + ERRORS + Decimal(errors)
  }

  /** runtime_watchdog_show */
  function Show(enabled: bool, recoveries: Bits.u32, reports: int, errors: Bits.u32): string {
    Line(enabled, recoveries, reports, errors) + ['\n']
  }

  // ---------- parsing ----------

  predicate Whitespace(c: char) {
    c in " \t\n\r\U{000C}"
  }

  /** Space, tab, line feed, form feed and carriage return. */
  lemma WhitespaceIs(c: char)
    ensures Whitespace(c) <==> c as int in {9, 10, 12, 13, 32}
  {
    assert c in " \t\n\r\U{000C}" <==> c == ' ' || c == '\t' || c == '\n' || c == '\r' || c == '\U{000C}';
  }

  function WordLength(s: string): (n: nat)
    ensures n <= |s|
  {
    if s == "" || Whitespace(s[0]) then 0 else 1 + WordLength(s[1..])
  }

  /** split_ascii_whitespace */
  function Fields(s: string): seq<string>
    decreases |s|
  {
    if s == "" then []
    else if Whitespace(s[0]) then Fields(s[1..])
    else [s[..WordLength(s)]] + Fields(s[WordLength(s)..])
  }

  /** The rest of the first field that starts with `prefix`. */
  function FindPrefixed(fields: seq<string>, prefix: string): Option<string> {
    if fields == [] then None
    else if prefix <= fields[0] then Some(fields[0][|prefix|..])
    else FindPrefixed(fields[1..], prefix)
  }

  function DigitValue(c: char): Option<nat> {
    if '0' <= c <= '9' then Some(c as int - '0' as int) else None
  }

  function Digits(s: string): Option<nat>
    requires s != ""
  {
    var d := DigitValue(s[|s| - 1]);
    if |s| == 1 || d.None? then d else
    var front := Digits(s[..|s| - 1]);
    if front.None? then None else Some(front.value * 10 + d.value)
  }

  /** str::parse for u64: an optional plus sign, digits, no overflow */
  function ParseU64(s: string): Option<nat> {
    var digits := if |s| > 1 && s[0] == '+' then s[1..] else s;
    if digits == "" then None else
    var n := Digits(digits);
    if n.Some? && n.value < U64 then n else None
  }

  function CountOf(status: string, name: string): Option<nat> {
    var field := FindPrefixed(Fields(status), name);
    if field.None? then None else ParseU64(field.value)
  }

  /** recovery_count */
  function RecoveryCount(status: string): Option<nat> {
    CountOf(status, RECOVERIES)
  }

  // ---------- the round trip ----------

  ghost predicate NoWhitespace(s: string) {
    forall i :: 0 <= i < |s| ==> !Whitespace(s[i])
  }

  lemma {:induction false} WordEnds(w: string, rest: string)
    requires NoWhitespace(w) && (rest == "" || Whitespace(rest[0]))
    ensures WordLength(w + rest) == |w|
  {
    if w == "" {
      assert w + rest == rest;
    } else {
      assert (w + rest)[1..] == w[1..] + rest;
      WordEnds(w[1..], rest);
    }
  }

  lemma FieldsFirst(w: string, rest: string)
    requires w != "" && NoWhitespace(w) && (rest == "" || Whitespace(rest[0]))
    ensures Fields(w + rest) == [w] + Fields(rest)
  {
    WordEnds(w, rest);
    assert (w + rest)[..|w|] == w && (w + rest)[|w|..] == rest;
  }

  lemma {:induction false} DecimalDigits(n: nat)
    ensures Digits(Decimal(n)) == Some(n)
    ensures forall i :: 0 <= i < |Decimal(n)| ==> '0' <= Decimal(n)[i] <= '9'
  {
    hide Digit, DigitValue;
    DigitReadsBack(n % 10);
    if n >= 10 {
      DecimalDigits(n / 10);
      var s := Decimal(n);
      assert s == Decimal(n / 10) + [Digit(n % 10)];
      assert s[..|s| - 1] == Decimal(n / 10) && s[|s| - 1] == Digit(n % 10);
    }
  }

  lemma DigitReadsBack(d: nat)
    requires d < 10
    ensures DigitValue(Digit(d)) == Some(d) && '0' <= Digit(d) <= '9'
  {
  }

  lemma ParseDecimal(n: nat)
    ensures ParseU64(Decimal(n)) == if n < U64 then Some(n) else None
  {
    DecimalDigits(n);
  }

  /** A prefix that the first field lacks and the second has is found there, whatever follows. */
  lemma SecondField(first: string, second: string, rest: string, prefix: string)
    requires first != "" && second != "" && NoWhitespace(first) && NoWhitespace(second)
    requires rest == "" || Whitespace(rest[0])
    requires !(prefix <= first) && prefix <= second
    ensures FindPrefixed(Fields(first + ([' '] + (second + rest))), prefix) == Some(second[|prefix|..])
  {
    var more := [' '] + (second + rest);
    FieldsFirst(first, more);
    FieldsFirst(second, rest);
    assert more[1..] == second + rest;
    assert Fields(more) == [second] + Fields(rest);
    FindSecond([first] + Fields(more), prefix);
  }

  lemma FindSecond(fields: seq<string>, prefix: string)
    requires |fields| >= 2 && !(prefix <= fields[0]) && prefix <= fields[1]
    ensures FindPrefixed(fields, prefix) == Some(fields[1][|prefix|..])
  {
    assert fields[1..][0] == fields[1];
  }

  lemma LabelledNumber(name: string, n: nat)
    requires NoWhitespace(name)
    ensures NoWhitespace(name + Decimal(n)) && name <= name + Decimal(n)
    ensures (name + Decimal(n))[|name|..] == Decimal(n)
  {
    DecimalDigits(n);
  }

  /** A text whose first field does not start like the counter and whose second is the counter:
      it is read, whatever follows. */
  lemma CountIsSecondField(title: string, flag: nat, name: string, count: nat, rest: string)
    requires NoWhitespace(title) && NoWhitespace(name) && title != "" && name != "" && title[0] != name[0]
    requires count < U64 && (rest == "" || Whitespace(rest[0]))
    ensures CountOf((title + Decimal(flag)) + ([' '] + ((name + Decimal(count)) + rest)), name) == Some(count)
  {
    LabelledNumber(title, flag);
    LabelledNumber(name, count);
    assert (title + Decimal(flag))[0] == title[0];
    SecondField(title + Decimal(flag), name + Decimal(count), rest, name);
    ParseDecimal(count);
  }

  // ---------- all four fields ----------

  const REPORTS_NAME := "reports="
  const ERRORS_NAME := "report_errors="

  function Negated(n: nat): Option<int> {
    Some(0 - n)
  }

  /** %lld read back */
  function ReadSigned(s: string): Option<int> {
    if s == "" then None
    else if s[0] == '-' && |s| > 1 then
      var n := Digits(s[1..]);
      if n.None? then None else Negated(n.value)
    else Digits(s)
  }

  function SignedOf(status: string, name: string): Option<int> {
    var field := FindPrefixed(Fields(status), name);
    if field.None? then None else ReadSigned(field.value)
  }

  lemma MinusIsClean(s: string)
    requires NoWhitespace(s)
    ensures NoWhitespace("-" + s)
  {
  }

  lemma SignedReadBack(n: int)
    ensures ReadSigned(Signed(n)) == Some(n) && NoWhitespace(Signed(n))
  {
    var m := if n < 0 then -n else n;
    DecimalDigits(m);
    CleanDigits(Decimal(m));
    hide Digits, Digit, Decimal, DigitValue, Whitespace, NoWhitespace;
    if n < 0 {
      assert Signed(n)[1..] == Decimal(m);
      MinusIsClean(Decimal(m));
    } else {
      assert Signed(n)[0] != '-';
    }
  }

  lemma Push(h: string, n: string, v: string, rest: string)
    ensures h + ([' '] + n) + v + rest == h + ([' '] + ((n + v) + rest))
  {
  }

  lemma SpaceThen(word: string, rest: string)
    requires word != "" && NoWhitespace(word) && (rest == "" || Whitespace(rest[0]))
    ensures Fields([' '] + (word + rest)) == [word] + Fields(rest)
  {
    assert ([' '] + (word + rest))[1..] == word + rest;
    FieldsFirst(word, rest);
  }

  lemma FourFields(a: string, b: string, c: string, d: string, end: string)
    requires a != "" && b != "" && c != "" && d != "" && (end == [] || end == ['\n'])
    requires NoWhitespace(a) && NoWhitespace(b) && NoWhitespace(c) && NoWhitespace(d)
    ensures Fields(a + ([' '] + (b + ([' '] + (c + ([' '] + (d + end))))))) == [a, b, c, d]
  {
    assert Fields(end) == [] by { if end != [] { assert end[1..] == []; } }
    SpaceThen(d, end);
    SpaceThen(c, [' '] + (d + end));
    SpaceThen(b, [' '] + (c + ([' '] + (d + end))));
    FieldsFirst(a, [' '] + (b + ([' '] + (c + ([' '] + (d + end))))));
  }

  /** A printed line, with any labels, splits into its four fields. */
  lemma LineFields(title: string, f: string, n1: string, v1: string, n2: string, v2: string, n3: string, v3: string, end: string)
    requires title != "" && n1 != "" && n2 != "" && n3 != "" && (end == [] || end == ['\n'])
    requires NoWhitespace(title + f) && NoWhitespace(n1 + v1) && NoWhitespace(n2 + v2) && NoWhitespace(n3 + v3)
    ensures Fields(title + f + ([' '] + n1) + v1 + ([' '] + n2) + v2 + ([' '] + n3) + v3 + end)
         == [title + f, n1 + v1, n2 + v2, n3 + v3]
  {
    hide Fields, NoWhitespace;
    var r3 := [' '] + ((n3 + v3) + end);
    var r2 := [' '] + ((n2 + v2) + r3);
    var h1 := title + f;
    var h2 := h1 + ([' '] + n1) + v1;
    var h3 := h2 + ([' '] + n2) + v2;
    Push(h3, n3, v3, end);
    Push(h2, n2, v2, r3);
    Push(h1, n1, v1, r2);
    FourFields(title + f, n1 + v1, n2 + v2, n3 + v3, end);
  }

  /** A name is not a prefix of a field whose own name differs from it somewhere. */
  lemma NotPrefix(name: string, other: string, value: string, i: nat)
    requires i < |name| && i < |other| && name[i] != other[i]
    ensures !(name <= other + value)
  {
    assert (other + value)[i] == other[i];
  }

  lemma {:induction false} FoundAt(fields: seq<string>, name: string, value: string, k: nat)
    requires k < |fields| && fields[k] == name + value && forall i :: 0 <= i < k ==> !(name <= fields[i])
    ensures FindPrefixed(fields, name) == Some(value)
    decreases k
  {
    if k == 0 {
      assert fields[0][|name|..] == value;
    } else {
      assert forall i :: 0 <= i < k - 1 ==> fields[1..][i] == fields[i + 1];
      FoundAt(fields[1..], name, value, k - 1);
    }
  }

  lemma AllLabels()
    ensures SEPARATED == [' '] + RECOVERIES && REPORTS == [' '] + REPORTS_NAME && ERRORS == [' '] + ERRORS_NAME
    ensures NoWhitespace(ENABLED) && NoWhitespace(RECOVERIES) && NoWhitespace(REPORTS_NAME) && NoWhitespace(ERRORS_NAME)
    ensures |ENABLED| > 0 && |RECOVERIES| > 2 && |REPORTS_NAME| > 6 && |ERRORS_NAME| > 6
    ensures RECOVERIES[0] != ENABLED[0] && REPORTS_NAME[0] != ENABLED[0] && ERRORS_NAME[0] != ENABLED[0]
    ensures REPORTS_NAME[2] != RECOVERIES[2] && ERRORS_NAME[2] != RECOVERIES[2] && ERRORS_NAME[6] != REPORTS_NAME[6]
  {
  }

  lemma JoinedClean(a: string, b: string)
    requires NoWhitespace(a) && NoWhitespace(b)
    ensures NoWhitespace(a + b)
  {
  }

  /** The four fields as the text holds them, for labels of which none is confused with another. */
  lemma ReadAll(title: string, n1: string, n2: string, n3: string, f: string, v1: string, v2: string, v3: string, status: string)
    requires Fields(status) == [title + f, n1 + v1, n2 + v2, n3 + v3]
    requires |title| > 0 && |n1| > 2 && |n2| > 6 && |n3| > 6
    requires n1[0] != title[0] && n2[0] != title[0] && n3[0] != title[0]
    requires n2[2] != n1[2] && n3[2] != n1[2] && n3[6] != n2[6]
    ensures var fields := Fields(status);
      && FindPrefixed(fields, title) == Some(f) && FindPrefixed(fields, n1) == Some(v1)
      && FindPrefixed(fields, n2) == Some(v2) && FindPrefixed(fields, n3) == Some(v3)
  {
    hide Fields, FindPrefixed;
    var fields := Fields(status);
    FoundAt(fields, title, f, 0);
    NotPrefix(n1, title, f, 0);
    FoundAt(fields, n1, v1, 1);
    NotPrefix(n2, title, f, 0);
    NotPrefix(n2, n1, v1, 2);
    FoundAt(fields, n2, v2, 2);
    NotPrefix(n3, title, f, 0);
    NotPrefix(n3, n1, v1, 2);
    NotPrefix(n3, n2, v2, 6);
    FoundAt(fields, n3, v3, 3);
  }

  ghost predicate ReadsBack(status: string, enabled: bool, recoveries: nat, reports: int, errors: nat) {
    && CountOf(status, ENABLED) == Some(if enabled then 1 else 0)
    && CountOf(status, RECOVERIES) == Some(recoveries)
    && SignedOf(status, REPORTS_NAME) == Some(reports)
    && CountOf(status, ERRORS_NAME) == Some(errors)
  }

  lemma TextReadsBack(enabled: bool, recoveries: Bits.u32, reports: int, errors: Bits.u32, end: string)
    requires end == [] || end == ['\n']
    ensures ReadsBack(Line(enabled, recoveries, reports, errors) + end, enabled, recoveries, reports, errors)
  {
    var f := Decimal(if enabled then 1 else 0);
    var v1, v2, v3 := Decimal(recoveries), Signed(reports), Decimal(errors);
    var status := Line(enabled, recoveries, reports, errors) + end;
    AllLabels();
    Printed(if enabled then 1 else 0);
    Printed(recoveries);
    Printed(errors);
    SignedReadBack(reports);
    LineIs(enabled, recoveries, reports, errors);
    hide Fields, FindPrefixed, NoWhitespace, Decimal, Signed, ParseU64, ReadSigned, Line;
    JoinedClean(ENABLED, f);
    JoinedClean(RECOVERIES, v1);
    JoinedClean(REPORTS_NAME, v2);
    JoinedClean(ERRORS_NAME, v3);
    LineFields(ENABLED, f, RECOVERIES, v1, REPORTS_NAME, v2, ERRORS_NAME, v3, end);
    ReadAll(ENABLED, RECOVERIES, REPORTS_NAME, ERRORS_NAME, f, v1, v2, v3, status);
  }

  lemma CleanDigits(s: string)
    requires forall i :: 0 <= i < |s| ==> '0' <= s[i] <= '9'
    ensures NoWhitespace(s)
  {
  }

  lemma Printed(n: nat)
    ensures NoWhitespace(Decimal(n)) && (n < U64 ==> ParseU64(Decimal(n)) == Some(n))
  {
    hide Decimal, Digits, ParseU64, NoWhitespace;
    DecimalDigits(n);
    CleanDigits(Decimal(n));
    ParseDecimal(n);
  }

  lemma LineIs(enabled: bool, recoveries: Bits.u32, reports: int, errors: Bits.u32)
    ensures Line(enabled, recoveries, reports, errors)
         == ENABLED + Decimal(if enabled then 1 else 0) + ([' '] + RECOVERIES) + Decimal(recoveries)
          + ([' '] + REPORTS_NAME) + Signed(reports) + ([' '] + ERRORS_NAME) + Decimal(errors)
  {
    AllLabels();
  }

  /** Each of the four printed fields reads back as its value, with or without the final newline: the
      monitor's counter is exactly the recoveries the driver printed. */
  lemma AllFieldsRoundTrip(enabled: bool, recoveries: Bits.u32, reports: int, errors: Bits.u32)
    ensures ReadsBack(Show(enabled, recoveries, reports, errors), enabled, recoveries, reports, errors)
    ensures ReadsBack(Line(enabled, recoveries, reports, errors), enabled, recoveries, reports, errors)
  {
    hide ReadsBack, Line;
    TextReadsBack(enabled, recoveries, reports, errors, ['\n']);
    TextReadsBack(enabled, recoveries, reports, errors, []);
    assert Line(enabled, recoveries, reports, errors) + [] == Line(enabled, recoveries, reports, errors);
  }

  /** The monitor's number parser takes exactly the digits of a number below 2^64, with or without a
      plus sign in front. */
  lemma {:induction false} DigitsExactly(s: string)
    requires s != ""
    ensures Digits(s).Some? <==> forall i :: 0 <= i < |s| ==> '0' <= s[i] <= '9'
  {
    if |s| > 1 {
      var front := s[..|s| - 1];
      DigitsExactly(front);
      assert forall i :: 0 <= i < |front| ==> front[i] == s[i];
    }
  }

  lemma ParsesExactly(s: string)
    ensures ParseU64(s).Some? ==> forall i :: 0 < i < |s| ==> '0' <= s[i] <= '9'
    ensures ParseU64(s).Some? ==> s != "" && ('0' <= s[0] <= '9' || (s[0] == '+' && |s| > 1))
    ensures forall n: nat :: ParseU64(['+'] + Decimal(n)) == ParseU64(Decimal(n)) == if n < U64 then Some(n) else None
  {
    if ParseU64(s).Some? {
      var digits := if |s| > 1 && s[0] == '+' then s[1..] else s;
      DigitsExactly(digits);
      assert |s| > 1 && s[0] == '+' ==> forall i :: 0 < i < |s| ==> s[i] == digits[i - 1];
    }
    forall n: nat ensures ParseU64(['+'] + Decimal(n)) == ParseU64(Decimal(n)) == if n < U64 then Some(n) else None {
      DecimalDigits(n);
      ParseDecimal(n);
      assert (['+'] + Decimal(n))[1..] == Decimal(n);
    }
  }
}
