/**
 The few string functions of Go's standard library the back end relies on:
 strings.TrimSpace, strings.Split, strings.FieldsFunc, strings.Join, fmt's %d
 and strconv.Atoi.  A string is a sequence of Unicode scalar values; for valid
 UTF-8 comparing those is the same as comparing bytes.
 */
module GoText {
  import opened Outcomes

  // ----- White space (unicode.IsSpace) -----

  predicate IsSpace(c: char) {
    || c == '\t' || c == '\n' || c == '\U{B}' || c == '\U{C}' || c == '\r' || c == ' '
    || c == '\U{85}' || c == '\U{A0}' || c == '\U{1680}'
    || '\U{2000}' <= c <= '\U{200A}'
    || c == '\U{2028}' || c == '\U{2029}' || c == '\U{202F}' || c == '\U{205F}' || c == '\U{3000}'
  }

  function TrimLeft(s: string): (t: string)
    ensures t == [] || !IsSpace(t[0])
    ensures t <= s || |t| < |s|
    ensures forall c :: c in t ==> c in s
    ensures s != [] && t != [] ==> t[|t| - 1] == s[|s| - 1]
  {
    if s != [] && IsSpace(s[0]) then TrimLeft(s[1..]) else s
  }

  function TrimRight(s: string): (t: string)
    ensures t <= s
    ensures t == [] || !IsSpace(t[|t| - 1])
  {
    if s != [] && IsSpace(s[|s| - 1]) then TrimRight(s[..|s| - 1]) else s
  }

  function TrimSpace(s: string): (t: string)
    ensures Trimmed(t)
    ensures forall c :: c in t ==> c in s
    ensures Trimmed(s) ==> t == s
  {
    var l := TrimLeft(s);
    var t := TrimRight(l);
    assert forall c :: c in t ==> c in l;
    t
  }

  // No white space at either end.
  predicate Trimmed(s: string) {
    s == [] || (!IsSpace(s[0]) && !IsSpace(s[|s| - 1]))
  }

  lemma TrimDropsLeadingSpace(s: string)
    ensures TrimSpace([' '] + s) == TrimSpace(s)
  {
  }

  lemma {:induction false} TrimLeftBlank(s: string)
    ensures TrimLeft(s) == "" <==> forall c :: c in s ==> IsSpace(c)
  {
    if s != [] {
      if IsSpace(s[0]) {
        TrimLeftBlank(s[1..]);
        assert forall c :: c in s <==> c == s[0] || c in s[1..];
      } else {
        assert s[0] in s;
      }
    }
  }

  lemma TrimSpaceBlank(s: string)
    ensures TrimSpace(s) == "" <==> forall c :: c in s ==> IsSpace(c)
  {
    TrimLeftBlank(s);
    var l := TrimLeft(s);
    if l != "" {
      assert !IsSpace(l[0]) && TrimRight(l) <= l;
      TrimRightKeeps(l);
    }
  }

  lemma {:induction false} TrimRightKeeps(s: string)
    requires s != "" && !IsSpace(s[0])
    ensures TrimRight(s) != ""
  {
    if IsSpace(s[|s| - 1]) {
      TrimRightKeeps(s[..|s| - 1]);
    }
  }

  // Text of white space only.
  predicate Blank(s: string) {
    forall c :: c in s ==> IsSpace(c)
  }

  lemma {:induction false} TrimLeftIs(s: string)
    ensures |TrimLeft(s)| <= |s|
    ensures var n := |s| - |TrimLeft(s)|; s[n..] == TrimLeft(s) && Blank(s[..n])
  {
    if s != [] && IsSpace(s[0]) {
      TrimLeftIs(s[1..]);
      var n := |s| - |TrimLeft(s)|;
      assert s[..n] == [s[0]] + s[1..][..n - 1];
    }
  }

  lemma {:induction false} TrimRightIs(s: string)
    ensures Blank(s[|TrimRight(s)|..])
  {
    if s != [] && IsSpace(s[|s| - 1]) {
      var init, n := s[..|s| - 1], |TrimRight(s)|;
      TrimRightIs(init);
      assert s[n..] == init[n..] + [s[|s| - 1]];
    }
  }

  /** What is cut off at either end is white space. */
  lemma TrimSpaceIs(s: string) returns (before: string, after: string)
    ensures s == before + TrimSpace(s) + after && Blank(before) && Blank(after)
    ensures TrimSpace(s) == "" <==> Blank(s)
  {
    var l := TrimLeft(s);
    TrimLeftIs(s);
    TrimRightIs(l);
    TrimSpaceBlank(s);
    before, after := s[..|s| - |l|], l[|TrimRight(l)|..];
    hide TrimLeft, TrimRight;
    assert l == TrimRight(l) + after;
  }

  // ----- Decimal numbers -----

  predicate IsDigit(c: char) { '0' <= c <= '9' }

  predicate AllDigits(s: string) { forall i :: 0 <= i < |s| ==> IsDigit(s[i]) }

  function DigitValue(c: char): (d: nat)
    requires IsDigit(c)
  {
    c as int - '0' as int
  }

  function PrintNat(n: nat): (s: string)
    ensures s != [] && AllDigits(s)
  {
    if n < 10 then ["0123456789"[n]] else PrintNat(n / 10) + ["0123456789"[n % 10]]
  }

  function PrintInt(n: int): (s: string)
    ensures s != []
    ensures forall i :: 0 <= i < |s| ==> IsDigit(s[i]) || s[i] == '-'
  {
    if n < 0 then "-" + PrintNat(-n) else PrintNat(n)
  }

  function DigitsValue(s: string): nat
    requires AllDigits(s)
  {
    if s == [] then 0 else 10 * DigitsValue(s[..|s| - 1]) + DigitValue(s[|s| - 1])
  }

  lemma {:induction false} PrintNatRoundTrip(n: nat)
    ensures DigitsValue(PrintNat(n)) == n
  {
    var s := PrintNat(n);
    if n < 10 {
      assert s[..|s| - 1] == [];
    } else {
      PrintNatRoundTrip(n / 10);
      assert s[..|s| - 1] == PrintNat(n / 10);
    }
  }

  lemma MinusIffNegative(n: int)
    ensures PrintInt(n)[0] == '-' <==> n < 0
  {
  }

  lemma PrintIntInjective(a: int, b: int)
    requires PrintInt(a) == PrintInt(b)
    ensures a == b
  {
    hide PrintNat, DigitsValue, AllDigits;
    MinusIffNegative(a);
    MinusIffNegative(b);
    if a < 0 {
      assert PrintInt(a)[1..] == PrintNat(-a) && PrintInt(b)[1..] == PrintNat(-b);
      PrintNatRoundTrip(-a);
      PrintNatRoundTrip(-b);
    } else {
      PrintNatRoundTrip(a);
      PrintNatRoundTrip(b);
    }
  }

  const INT_MAX := 0x7FFF_FFFF_FFFF_FFFF
  const INT_MIN := -0x8000_0000_0000_0000

  /** strconv.Atoi for a 64-bit int: an optional sign, then only digits, then the
      range check. */
  function Atoi(s: string): Option<int> {
    var signed := s != [] && (s[0] == '+' || s[0] == '-');
    var digits := if signed then s[1..] else s;
    if digits == [] || !AllDigits(digits) then None
    else
      var value: int := if signed && s[0] == '-' then -(DigitsValue(digits) as int) else DigitsValue(digits);
      if INT_MIN <= value <= INT_MAX then Some(value) else None
  }

  lemma AtoiOfPrint(n: nat)
    requires n <= INT_MAX
    ensures Atoi(PrintNat(n)) == Some(n)
  {
    PrintNatRoundTrip(n);
    assert IsDigit(PrintNat(n)[0]);
  }

  // A sign is read, and what is no number or beyond 64 bits is refused.
  lemma AtoiSigned(digits: string)
    requires digits != "" && AllDigits(digits)
    ensures Atoi(digits) == Atoi("+" + digits)
            == if DigitsValue(digits) <= 9223372036854775807 then Some(DigitsValue(digits)) else None
    ensures Atoi("-" + digits).Some? <==> DigitsValue(digits) <= 9223372036854775808
    ensures Atoi("-" + digits).Some? ==> Atoi("-" + digits).value + DigitsValue(digits) == 0
  {
    hide DigitsValue;
    assert IsDigit(digits[0]);
    assert ("+" + digits)[1..] == digits && ("-" + digits)[1..] == digits;
  }

  lemma AtoiRefuses(s: string)
    requires !AllDigits(if s != "" && (s[0] == '+' || s[0] == '-') then s[1..] else s)
    ensures Atoi(s).None?
  {
  }

  // ----- Splitting and joining -----

  /** Length of the longest prefix without a separator. */
  function Span(s: string, seps: set<char>): (n: nat)
    ensures n <= |s|
    ensures forall i :: 0 <= i < n ==> s[i] !in seps
    ensures n < |s| ==> s[n] in seps
  {
    if s == [] || s[0] in seps then 0 else 1 + Span(s[1..], seps)
  }

  /** strings.Split with a one-character separator: never empty. */
  function Split(s: string, sep: char): (parts: seq<string>)
    ensures parts != []
    decreases |s|
  {
    var n := Span(s, {sep});
    if n == |s| then [s] else [s[..n]] + Split(s[n + 1..], sep)
  }

  /** strings.FieldsFunc: maximal runs of non-separators. */
  function Fields(s: string, seps: set<char>): (parts: seq<string>)
    ensures forall i :: 0 <= i < |parts| ==> IsField(parts[i], s, seps)
    decreases |s|
  {
    if s == [] then []
    else if s[0] in seps then Fields(s[1..], seps)
    else
      var n := Span(s, seps);
      var rest := Fields(s[n..], seps);
      assert forall i :: 0 <= i < |rest| ==> IsField(rest[i], s[n..], seps);
      [s[..n]] + rest
  }

  predicate IsField(field: string, s: string, seps: set<char>) {
    field != [] && forall c :: c in field ==> c in s && c !in seps
  }

  /** strings.Join */
  function Join(parts: seq<string>, sep: string): string {
    if parts == [] then []
    else if |parts| == 1 then parts[0]
    else parts[0] + sep + Join(parts[1..], sep)
  }

  // Trimmed parts, without the empty ones.
  function TrimmedNonEmpty(parts: seq<string>): seq<string> {
    if parts == [] then []
    else (if TrimSpace(parts[0]) == "" then [] else [TrimSpace(parts[0])]) + TrimmedNonEmpty(parts[1..])
  }

  predicate NoneOf(s: string, seps: set<char>) {
    forall i :: 0 <= i < |s| ==> s[i] !in seps
  }

  lemma SpanUpTo(a: string, rest: string, seps: set<char>)
    requires NoneOf(a, seps) && (rest == "" || rest[0] in seps)
    ensures Span(a + rest, seps) == |a|
  {
    hide Span;
    var s := a + rest;
    assert forall i :: 0 <= i < |a| ==> s[i] == a[i];
    assert rest != "" ==> s[|a|] == rest[0];
  }

  lemma FieldThen(a: string, rest: string, seps: set<char>)
    requires a != "" && NoneOf(a, seps) && (rest == "" || rest[0] in seps)
    ensures Fields(a + rest, seps) == [a] + Fields(rest, seps)
  {
    SpanUpTo(a, rest, seps);
    assert (a + rest)[..|a|] == a && (a + rest)[|a|..] == rest;
  }

  // A separator cuts a text into the fields on its left and on its right.
  lemma {:induction false} FieldsAt(a: string, sep: char, rest: string, seps: set<char>)
    requires sep in seps
    ensures Fields(a + ([sep] + rest), seps) == Fields(a, seps) + Fields(rest, seps)
    decreases |a|
  {
    if a == "" {
      assert a + ([sep] + rest) == [sep] + rest && ([sep] + rest)[1..] == rest;
    } else if a[0] in seps {
      assert (a + ([sep] + rest))[1..] == a[1..] + ([sep] + rest);
      FieldsAt(a[1..], sep, rest, seps);
    } else {
      var n := Span(a, seps);
      var word, more := a[..n], a[n..];
      assert a == word + more && more + ([sep] + rest) != "";
      FieldThen(word, more, seps);
      FieldThen(word, more + ([sep] + rest), seps);
      assert a + ([sep] + rest) == word + (more + ([sep] + rest));
      FieldsAt(more, sep, rest, seps);
      hide Fields;
    }
  }

  // Joined with any separator, fields come back as they were.
  lemma {:induction false} FieldsOfJoin(ids: seq<string>, sep: char, seps: set<char>)
    requires sep in seps && forall i :: 0 <= i < |ids| ==> ids[i] != "" && NoneOf(ids[i], seps)
    ensures Fields(Join(ids, [sep]), seps) == ids
  {
    if |ids| == 1 {
      FieldThen(ids[0], "", seps);
      assert ids[0] + "" == ids[0];
    } else if |ids| > 1 {
      var rest := Join(ids[1..], [sep]);
      assert Join(ids, [sep]) == ids[0] + ([sep] + rest);
      FieldThen(ids[0], [sep] + rest, seps);
      assert ([sep] + rest)[1..] == rest;
      assert Fields([sep] + rest, seps) == Fields(rest, seps);
      FieldsOfJoin(ids[1..], sep, seps);
    }
  }
}
