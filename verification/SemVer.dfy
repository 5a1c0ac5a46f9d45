/**
 Agreement of the updater's order with the precedence rules of Semantic
 Versioning 2.0.0, section 11.
 */
module SemVer {
  import opened Outcomes
  import opened GoText
  import opened Orders
  import opened Versions
  import opened VersionOrder

  // ----- Semantic Versioning -----

  datatype Identifier = Numeric(n: nat) | Alphanumeric(s: string)

  datatype Version = Version(major: nat, minor: nat, patch: nat, pre: seq<Identifier>)

  // The first difference decides; a proper prefix is below.
  ghost predicate BelowAtFirstDifference<T(!new)>(below: (T, T) -> bool, a: seq<T>, b: seq<T>) {
    exists i :: DecidedAt(below, a, b, i)
  }

  ghost predicate DecidedAt<T(!new)>(below: (T, T) -> bool, a: seq<T>, b: seq<T>, i: nat) {
    && i <= |a| && i < |b|
    && a[..i] == b[..i]
    && (i == |a| || below(a[i], b[i]))
  }

  predicate CharBelow(x: char, y: char) { x < y }

  // Section 11.4: numbers by value, text in ASCII order, numbers below text.
  ghost predicate IdentifierBelow(x: Identifier, y: Identifier) {
    match (x, y)
    case (Numeric(m), Numeric(n)) => m < n
    case (Numeric(_), Alphanumeric(_)) => true
    case (Alphanumeric(_), Numeric(_)) => false
    case (Alphanumeric(s), Alphanumeric(t)) => BelowAtFirstDifference(CharBelow, s, t)
  }

  // Sections 11.2 and 11.3.
  ghost predicate Precedes(a: Version, b: Version) {
    || a.major < b.major
    || (a.major == b.major && a.minor < b.minor)
    || (a.major == b.major && a.minor == b.minor && a.patch < b.patch)
    || (a.(pre := []) == b.(pre := []) && PrePrecedes(a.pre, b.pre))
  }

  ghost predicate PrePrecedes(p: seq<Identifier>, q: seq<Identifier>) {
    || (p != [] && q == [])
    || (p != [] && q != [] && BelowAtFirstDifference((x, y) => IdentifierBelow(x, y), p, q))
  }

  // ----- Printing -----

  predicate IsAlphanumeric(c: char) {
    IsDigit(c) || 'a' <= c <= 'z' || 'A' <= c <= 'Z'
  }

  // Representable identifiers without hyphens.
  predicate Plain(x: Identifier) {
    match x
    case Numeric(n) => n <= INT_MAX
    case Alphanumeric(s) => !AllDigits(s) && forall i :: 0 <= i < |s| ==> IsAlphanumeric(s[i])
  }

  predicate Printable(v: Version) {
    && v.major <= INT_MAX && v.minor <= INT_MAX && v.patch <= INT_MAX
    && forall i :: 0 <= i < |v.pre| ==> Plain(v.pre[i])
  }

  function PrintIdentifier(x: Identifier): string {
    match x
    case Numeric(n) => PrintNat(n)
    case Alphanumeric(s) => s
  }

  function PrintAll(pre: seq<Identifier>): (ids: seq<string>)
    ensures |ids| == |pre|
    ensures forall i :: 0 <= i < |pre| ==> ids[i] == PrintIdentifier(pre[i])
  {
    if pre == [] then [] else [PrintIdentifier(pre[0])] + PrintAll(pre[1..])
  }

  function PrintCore(v: Version): string {
    PrintNat(v.major) + "." + PrintNat(v.minor) + "." + PrintNat(v.patch)
  }

  function PrintBody(v: Version): string {
    PrintCore(v) + (if v.pre == [] then "" else "-" + Join(PrintAll(v.pre), "."))
  }

  function Marked(body: string, marked: bool): string {
    (if marked then "v" else "") + body
  }

  function Print(v: Version, marked: bool): string {
    Marked(PrintBody(v), marked)
  }

  // A positive number followed by text in g: what git describe appends to a tag.
  predicate DescribeShaped(pre: seq<Identifier>) {
    && |pre| >= 2
    && pre[0].Numeric? && pre[0].n > 0
    && pre[1].Alphanumeric? && pre[1].s != "" && (pre[1].s[0] == 'g' || pre[1].s[0] == 'G')
  }

  // ----- Splitting what was printed -----

  predicate NoSpace(s: string) {
    forall i :: 0 <= i < |s| ==> !IsSpace(s[i])
  }

  lemma SplitOne(a: string, sep: char)
    requires NoneOf(a, {sep})
    ensures Split(a, sep) == [a]
  {
  }

  lemma SplitMore(a: string, rest: string, sep: char)
    requires NoneOf(a, {sep})
    ensures Split(a + [sep] + rest, sep) == [a] + Split(rest, sep)
  {
    var s := a + [sep] + rest;
    assert s == a + ([sep] + rest);
    SpanUpTo(a, [sep] + rest, {sep});
    assert s[..|a|] == a && s[|a| + 1..] == rest;
  }

  lemma {:induction false} JoinHasNoSpace(ids: seq<string>, sep: string)
    requires NoSpace(sep) && forall i :: 0 <= i < |ids| ==> NoSpace(ids[i])
    ensures NoSpace(Join(ids, sep))
  {
    if |ids| > 1 {
      JoinHasNoSpace(ids[1..], sep);
    }
  }

  lemma {:induction false} TrimmedNonEmptyFixed(ids: seq<string>)
    requires forall i :: 0 <= i < |ids| ==> ids[i] != "" && NoSpace(ids[i])
    ensures TrimmedNonEmpty(ids) == ids
  {
    if ids != [] {
      TrimmedNonEmptyFixed(ids[1..]);
    }
  }

  // ----- Identifiers -----

  predicate PlainText(s: string) {
    s != "" && forall i :: 0 <= i < |s| ==> IsAlphanumeric(s[i])
  }

  lemma PlainPrints(x: Identifier)
    requires Plain(x)
    ensures PlainText(PrintIdentifier(x))
    ensures Atoi(PrintIdentifier(x)) == match x case Numeric(n) => Some(n) case Alphanumeric(_) => None
  {
    match x
    case Numeric(n) => AtoiOfPrint(n);
    case Alphanumeric(s) =>
      assert IsAlphanumeric(s[0]);
  }

  lemma PlainTextHas(s: string)
    requires PlainText(s)
    ensures NoSpace(s) && NoneOf(s, IDENTIFIER_SEPARATORS) && TrimSpace(s) == s
  {
  }

  // However the identifiers are joined, the parser reads them back.
  lemma IdentifiersReadBack(ids: seq<string>, sep: char)
    requires sep in IDENTIFIER_SEPARATORS
    requires forall i :: 0 <= i < |ids| ==> PlainText(ids[i])
    ensures Identifiers(Join(ids, [sep])) == ids
  {
    forall i | 0 <= i < |ids|
      ensures NoSpace(ids[i]) && NoneOf(ids[i], IDENTIFIER_SEPARATORS)
    {
      PlainTextHas(ids[i]);
    }
    JoinHasNoSpace(ids, [sep]);
    var joined := Join(ids, [sep]);
    assert Trimmed(joined);
    FieldsOfJoin(ids, sep, IDENTIFIER_SEPARATORS);
    TrimmedNonEmptyFixed(ids);
  }

  lemma PrintAllPlain(pre: seq<Identifier>)
    requires forall i :: 0 <= i < |pre| ==> Plain(pre[i])
    ensures forall i :: 0 <= i < |pre| ==> PlainText(PrintAll(pre)[i])
  {
  }

  lemma DescribeRecognised(pre: seq<Identifier>)
    requires forall i :: 0 <= i < |pre| ==> Plain(pre[i])
    ensures GitDescribe(PrintAll(pre)).Some? <==> DescribeShaped(pre)
    ensures DescribeShaped(pre) ==> GitDescribe(PrintAll(pre)).value == (pre[0].n, PrintAll(pre)[1..])
  {
    hide Atoi, TrimSpace, PrintAll, PrintNat, NoSpace, NoneOf, Plain;
    if |pre| >= 2 {
      var ids := PrintAll(pre);
      PlainPrints(pre[0]);
      PlainPrints(pre[1]);
      PlainTextHas(ids[0]);
      PlainTextHas(ids[1]);
      if pre[1].Numeric? {
        assert IsDigit(ids[1][0]);
      }
    }
  }

  // ----- Numbers -----

  lemma {:induction false} DigitPrefixOfDigits(s: string)
    requires AllDigits(s)
    ensures DigitPrefix(s) == s
  {
    if s != "" {
      assert AllDigits(s[1..]);
      DigitPrefixOfDigits(s[1..]);
    }
  }

  lemma SegmentOfPrint(n: nat)
    requires n <= INT_MAX
    ensures SegmentNumber(PrintNat(n)) == Some(n)
    ensures PlainText(PrintNat(n)) && NoneOf(PrintNat(n), {'.'}) && NoneOf(PrintNat(n), {'-'})
  {
    hide PrintNat, AllDigits, TrimSpace, Atoi;
    DigitsArePlain(PrintNat(n));
    DigitPrefixOfDigits(PrintNat(n));
    AtoiOfPrint(n);
  }

  lemma DigitsArePlain(s: string)
    requires s != "" && AllDigits(s)
    ensures TrimSpace(s) == s
    ensures PlainText(s) && NoneOf(s, {'.'}) && NoneOf(s, {'-'})
  {
  }

  lemma SegmentNumbersCons(segment: string, rest: seq<string>, n: int, numbers: seq<int>)
    requires SegmentNumber(segment) == Some(n) && SegmentNumbers(rest) == Some(numbers)
    ensures SegmentNumbers([segment] + rest) == Some([n] + numbers)
  {
  }

  lemma CoreNumbers(v: Version)
    requires Printable(v)
    ensures SegmentNumbers(Split(PrintCore(v), '.')) == Some([v.major, v.minor, v.patch])
  {
    hide Split, SegmentNumber, PrintNat, NoneOf, PlainText;
    var a, b, c := PrintNat(v.major), PrintNat(v.minor), PrintNat(v.patch);
    SegmentOfPrint(v.major);
    SegmentOfPrint(v.minor);
    SegmentOfPrint(v.patch);
    assert PrintCore(v) == a + ['.'] + (b + ['.'] + c);
    SplitMore(a, b + ['.'] + c, '.');
    SplitMore(b, c, '.');
    SplitOne(c, '.');
    SegmentNumbersCons(c, [], v.patch, []);
    assert [c] + [] == [c] && [v.patch] + [] == [v.patch];
    SegmentNumbersCons(b, [c], v.minor, [v.patch]);
    SegmentNumbersCons(a, [b] + [c], v.major, [v.minor] + [v.patch]);
    assert [v.major] + ([v.minor] + [v.patch]) == [v.major, v.minor, v.patch];
  }

  predicate CoreText(s: string) {
    forall i :: 0 <= i < |s| ==> IsDigit(s[i]) || s[i] == '.'
  }

  lemma CoreTextHas(s: string)
    requires CoreText(s)
    ensures NoneOf(s, {'-'}) && NoSpace(s)
  {
  }

  lemma CoreShape(v: Version)
    ensures CoreText(PrintCore(v))
    ensures PrintCore(v) != "" && IsDigit(PrintCore(v)[0])
  {
  }

  // ----- The parser on printed versions -----

  lemma NormalizeMarked(body: string, marked: bool)
    requires body != "" && body[0] != 'v' && NoSpace(body)
    ensures Normalize(Marked(body, marked)) == body
  {
  }

  lemma ParseShaped(core: string, rest: string, marked: bool, numbers: seq<int>)
    requires core != "" && IsDigit(core[0]) && CoreText(core) && NoSpace(rest)
    requires rest == "" || rest[0] == '-'
    requires SegmentNumbers(Split(core, '.')) == Some(numbers)
    ensures Parse(Marked(core + rest, marked)) == Info(numbers, if rest == "" then "" else rest[1..])
  {
    hide Split, SegmentNumbers, Info, Normalize, Span, IsSpace, Marked;
    var body := core + rest;
    assert body[0] == core[0];
    CoreTextHas(core);
    NormalizeMarked(body, marked);
    SpanUpTo(core, rest, {'-'});
    assert body[..|core|] == core;
    if rest != "" {
      assert body[|core| + 1..] == rest[1..];
    }
  }

  // Parsing CORE and CORE-SUFFIX, with or without the v.
  lemma ParseOf(v: Version, suffix: string, marked: bool)
    requires Printable(v) && NoSpace(suffix)
    ensures Parse(Marked(PrintCore(v), marked)) == Info([v.major, v.minor, v.patch], "")
    ensures Parse(Marked(PrintCore(v) + "-" + suffix, marked)) == Info([v.major, v.minor, v.patch], suffix)
  {
    hide Parse, PrintCore, Split, SegmentNumbers, Info, CoreText, Marked;
    CoreShape(v);
    CoreNumbers(v);
    var core := PrintCore(v);
    ParseShaped(core, "", marked, [v.major, v.minor, v.patch]);
    assert core + "" == core;
    assert NoSpace("-" + suffix);
    ParseShaped(core, "-" + suffix, marked, [v.major, v.minor, v.patch]);
    assert core + ("-" + suffix) == core + "-" + suffix;
    assert ("-" + suffix)[1..] == suffix;
  }

  lemma ParsePrinted(v: Version, marked: bool)
    requires Printable(v)
    ensures Parse(Print(v, marked)) ==
              if DescribeShaped(v.pre) then
                VersionInfo(true, false, [v.major, v.minor, v.patch], [], v.pre[0].n, PrintAll(v.pre)[1..])
              else
                VersionInfo(true, false, [v.major, v.minor, v.patch], PrintAll(v.pre), 0, [])
  {
    hide Parse, PrintCore, Identifiers, GitDescribe, Join, PlainText, Plain, Marked;
    var ids := PrintAll(v.pre);
    var suffix := Join(ids, ".");
    PrintAllPlain(v.pre);
    PlainListHasNoSpace(ids, ".");
    ParseOf(v, suffix, marked);
    if v.pre == [] {
      assert PrintBody(v) == PrintCore(v);
    } else {
      IdentifiersReadBack(ids, '.');
      DescribeRecognised(v.pre);
      PlainListNotEmpty(ids, ".");
      assert PrintBody(v) == PrintCore(v) + "-" + suffix;
    }
  }

  lemma PlainListHasNoSpace(ids: seq<string>, sep: string)
    requires NoSpace(sep) && forall i :: 0 <= i < |ids| ==> PlainText(ids[i])
    ensures NoSpace(Join(ids, sep))
  {
  }

  lemma PlainListNotEmpty(ids: seq<string>, sep: string)
    requires ids != [] && forall i :: 0 <= i < |ids| ==> PlainText(ids[i])
    ensures Join(ids, sep) != ""
  {
  }

  // ----- Comparison against first differences -----

  lemma DecidedLater<T(!new)>(below: (T, T) -> bool, a: seq<T>, b: seq<T>, i: nat)
    requires DecidedAt(below, a, b, i) && i > 0
    ensures a[0] == b[0]
  {
  }

  lemma DecidedAtOnce<T(!new)>(below: (T, T) -> bool, a: seq<T>, b: seq<T>)
    requires a != [] && b != [] && a[0] != b[0]
    ensures BelowAtFirstDifference(below, a, b) <==> below(a[0], b[0])
  {
    forall i: nat | DecidedAt(below, a, b, i) ensures i == 0 {
      if i > 0 {
        DecidedLater(below, a, b, i);
      }
    }
    if below(a[0], b[0]) {
      assert DecidedAt(below, a, b, 0);
    }
  }

  lemma {:induction false} TextBelowIff(a: string, b: string)
    ensures CompareText(a, b) < 0 <==> BelowAtFirstDifference(CharBelow, a, b)
    ensures CompareText(a, b) == 0 <==> a == b
  {
    LexZero(CompareChar, a, b);
    if a == [] || b == [] {
      if b != [] {
        assert DecidedAt(CharBelow, a, b, 0);
      }
    } else if a[0] != b[0] {
      DecidedAtOnce(CharBelow, a, b);
    } else {
      TextBelowIff(a[1..], b[1..]);
      DecidedShift(CharBelow, a, b);
    }
  }

  lemma DecidedShift<T(!new)>(below: (T, T) -> bool, a: seq<T>, b: seq<T>)
    requires a != [] && b != [] && a[0] == b[0] && !below(a[0], b[0])
    ensures BelowAtFirstDifference(below, a, b) <==> BelowAtFirstDifference(below, a[1..], b[1..])
  {
    if i: nat :| DecidedAt(below, a, b, i) {
      assert i > 0;
      assert a[1..][..i - 1] == a[..i][1..] && b[1..][..i - 1] == b[..i][1..];
      assert DecidedAt(below, a[1..], b[1..], i - 1);
    }
    if i: nat :| DecidedAt(below, a[1..], b[1..], i) {
      assert a[..i + 1] == [a[0]] + a[1..][..i] && b[..i + 1] == [b[0]] + b[1..][..i];
      assert DecidedAt(below, a, b, i + 1);
    }
  }

  lemma IdentifierBelowIff(x: Identifier, y: Identifier)
    requires Plain(x) && Plain(y)
    ensures CompareIdentifier(PrintIdentifier(x), PrintIdentifier(y)) < 0 <==> IdentifierBelow(x, y)
    ensures CompareIdentifier(PrintIdentifier(x), PrintIdentifier(y)) == 0 <==> x == y
  {
    PlainPrints(x);
    PlainPrints(y);
    hide Atoi, PrintNat, Plain, PlainText;
    if x.Alphanumeric? && y.Alphanumeric? {
      TextBelowIff(x.s, y.s);
    }
  }

  lemma {:induction false} PrereleaseBelowIff(p: seq<Identifier>, q: seq<Identifier>)
    requires forall i :: 0 <= i < |p| ==> Plain(p[i])
    requires forall i :: 0 <= i < |q| ==> Plain(q[i])
    ensures LexCompare(CompareIdentifier, PrintAll(p), PrintAll(q)) < 0 <==>
              BelowAtFirstDifference((x, y) => IdentifierBelow(x, y), p, q)
  {
    var below := (x, y) => IdentifierBelow(x, y);
    hide CompareIdentifier, Plain, IdentifierBelow;
    if p == [] || q == [] {
      if q != [] {
        assert DecidedAt(below, p, q, 0);
      }
    } else {
      IdentifierBelowIff(p[0], q[0]);
      if p[0] != q[0] {
        DecidedAtOnce(below, p, q);
      } else {
        PrereleaseBelowIff(p[1..], q[1..]);
        DecidedShift(below, p, q);
      }
    }
  }

  lemma CompareThreeNumbers(a: Version, b: Version)
    ensures var c := ComparePadded([a.major, a.minor, a.patch], [b.major, b.minor, b.patch]);
            && (c == 0 <==> a.(pre := []) == b.(pre := []))
            && (c < 0 <==> || a.major < b.major
                           || (a.major == b.major && a.minor < b.minor)
                           || (a.major == b.major && a.minor == b.minor && a.patch < b.patch))
  {
    var x, y := [a.major, a.minor, a.patch], [b.major, b.minor, b.patch];
    PaddedStep(x, y);
    PaddedStep(x[1..], y[1..]);
    PaddedStep(x[1..][1..], y[1..][1..]);
    assert x[1..][1..][1..] == [] && y[1..][1..][1..] == [];
  }

  // ----- Main results -----

  // Newer on the printed strings is precedence of section 11.
  lemma SemVerAgreement(a: Version, b: Version, markedA: bool, markedB: bool)
    requires Printable(a) && Printable(b)
    requires !DescribeShaped(a.pre) && !DescribeShaped(b.pre)
    ensures IsVersionNewer(Print(a, markedA), Print(b, markedB)) <==> Precedes(a, b)
  {
    hide Parse, Print, PrintAll, ComparePadded, LexCompare;
    ParsePrinted(a, markedA);
    ParsePrinted(b, markedB);
    CompareThreeNumbers(a, b);
    PrereleaseBelowIff(a.pre, b.pre);
  }

  // A pre-release is below its own release unless git describe could have named it:
  // exactly there the updater leaves the standard, on purpose.
  lemma BelowOwnReleaseIff(v: Version, marked: bool, markedRelease: bool)
    requires Printable(v) && v.pre != []
    ensures Precedes(v, v.(pre := []))
    ensures IsVersionNewer(Print(v, marked), Print(v.(pre := []), markedRelease)) <==> !DescribeShaped(v.pre)
  {
    hide Parse, Print, PrintAll, ComparePadded, LexCompare;
    ParsePrinted(v, marked);
    ParsePrinted(v.(pre := []), markedRelease);
    CompareThreeNumbers(v, v.(pre := []));
  }
}
