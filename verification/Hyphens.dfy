/**
 Pre-release identifiers that hold hyphens, as section 9 of Semantic Versioning 2.0.0
 allows: how the updater reads them, and exactly which versions it then still orders as
 section 11 does.
 */
module Hyphens {
  import opened GoText
  import opened Versions
  import opened SemVer

  // ----- Versions with hyphens -----

  predicate Legal(x: Identifier) {
    match x
    case Numeric(n) => n <= INT_MAX
    case Alphanumeric(s) => !AllDigits(s) && forall i :: 0 <= i < |s| ==> IsAlphanumeric(s[i]) || s[i] == '-'
  }

  predicate LegalVersion(v: Version) {
    && v.major <= INT_MAX && v.minor <= INT_MAX && v.patch <= INT_MAX
    && forall i :: 0 <= i < |v.pre| ==> Legal(v.pre[i])
  }

  predicate Hyphenated(x: Identifier) {
    x.Alphanumeric? && '-' in x.s
  }

  /** What is left when every identifier is split at its hyphens. */
  function Pieces(pre: seq<Identifier>): seq<string> {
    if pre == [] then [] else Fields(PrintIdentifier(pre[0]), IDENTIFIER_SEPARATORS) + Pieces(pre[1..])
  }

  lemma PlainIffNoHyphen(x: Identifier)
    requires Legal(x)
    ensures Plain(x) <==> !Hyphenated(x)
  {
  }

  // ----- The reading -----

  lemma {:induction false} FieldsOfDotted(pre: seq<Identifier>)
    ensures Fields(Join(PrintAll(pre), "."), IDENTIFIER_SEPARATORS) == Pieces(pre)
  {
    hide Fields;
    if pre == [] {
      NoFields();
    } else if |pre| == 1 {
      assert Pieces(pre[1..]) == [];
      assert Pieces(pre) == Fields(PrintIdentifier(pre[0]), IDENTIFIER_SEPARATORS) + [];
      assert PrintAll(pre) == [PrintIdentifier(pre[0])];
    } else {
      var rest := Join(PrintAll(pre[1..]), ".");
      assert PrintAll(pre)[1..] == PrintAll(pre[1..]);
      assert Join(PrintAll(pre), ".") == PrintIdentifier(pre[0]) + (['.'] + rest);
      FieldsAt(PrintIdentifier(pre[0]), '.', rest, IDENTIFIER_SEPARATORS);
      FieldsOfDotted(pre[1..]);
    }
  }

  lemma NoFields()
    ensures Fields("", IDENTIFIER_SEPARATORS) == [] && Join(PrintAll([]), ".") == ""
  {
  }

  lemma LegalPrints(x: Identifier)
    requires Legal(x)
    ensures PrintIdentifier(x) != "" && NoSpace(PrintIdentifier(x))
  {
  }

  lemma {:induction false} DottedText(pre: seq<Identifier>)
    requires pre != [] && forall i :: 0 <= i < |pre| ==> Legal(pre[i])
    ensures Join(PrintAll(pre), ".") != "" && NoSpace(Join(PrintAll(pre), "."))
  {
    hide Legal, PrintIdentifier, NoSpace;
    forall i | 0 <= i < |pre| ensures PrintAll(pre)[i] != "" && NoSpace(PrintAll(pre)[i]) {
      LegalPrints(pre[i]);
    }
    DotHasNoSpace();
    JoinHasNoSpace(PrintAll(pre), ".");
  }

  lemma DotHasNoSpace()
    ensures NoSpace(".")
  {
  }

  lemma FieldsFixed(s: string)
    requires NoSpace(s)
    ensures TrimmedNonEmpty(Fields(s, IDENTIFIER_SEPARATORS)) == Fields(s, IDENTIFIER_SEPARATORS)
  {
    hide Fields;
    var parts := Fields(s, IDENTIFIER_SEPARATORS);
    forall i | 0 <= i < |parts| ensures parts[i] != "" && NoSpace(parts[i]) {
      assert IsField(parts[i], s, IDENTIFIER_SEPARATORS);
      assert forall k :: 0 <= k < |parts[i]| ==> parts[i][k] in parts[i];
    }
    TrimmedNonEmptyFixed(parts);
  }

  // The record a version with these pieces is read as.
  function ReadAs(v: Version): VersionInfo {
    var plain := VersionInfo(true, false, [v.major, v.minor, v.patch], [], 0, []);
    match GitDescribe(Pieces(v.pre))
    case Some((distance, tail)) => plain.(distance := distance, tail := tail)
    case None => plain.(prerelease := Pieces(v.pre))
  }

  /** Every printed version is read with its hyphens as separators, empty pieces dropped. */
  lemma ParseHyphenated(v: Version, marked: bool)
    requires LegalVersion(v)
    ensures Parse(Print(v, marked)) == ReadAs(v)
  {
    hide Parse, PrintCore, Fields, GitDescribe, Join, Legal, Marked, TrimSpace, NoSpace;
    var release := v.(pre := []);
    if v.pre == [] {
      EmptyHasNoSpace();
      ParseOf(release, "", marked);
      assert PrintBody(v) == PrintCore(v) && PrintCore(v) == PrintCore(release) by { SameCore(v); }
      NoDescribe();
    } else {
      var suffix := Join(PrintAll(v.pre), ".");
      DottedText(v.pre);
      ParseOf(release, suffix, marked);
      SameCore(v);
      assert PrintBody(v) == PrintCore(v) + "-" + suffix;
      SuffixRead(suffix);
      FieldsOfDotted(v.pre);
    }
  }

  lemma SameCore(v: Version)
    ensures PrintCore(v.(pre := [])) == PrintCore(v)
  {
  }

  lemma EmptyHasNoSpace()
    ensures NoSpace("")
  {
  }

  lemma NoDescribe()
    ensures GitDescribe([]).None?
  {
  }

  lemma SuffixRead(suffix: string)
    requires NoSpace(suffix)
    ensures Identifiers(suffix) == Fields(suffix, IDENTIFIER_SEPARATORS)
  {
    assert Trimmed(suffix);
    FieldsFixed(suffix);
  }

  // ----- Ordered as the standard orders -----

  // A version the parser takes as it is meant.
  predicate Straight(b: Version) {
    Printable(b) && !DescribeShaped(b.pre)
  }

  ghost predicate OrderedAgainst(a: Version, b: Version, markedA: bool, markedB: bool) {
    && (IsVersionNewer(Print(a, markedA), Print(b, markedB)) <==> Precedes(a, b))
    && (IsVersionNewer(Print(b, markedB), Print(a, markedA)) <==> Precedes(b, a))
  }

  // Against every version that is taken as meant, the updater says what section 11 says.
  ghost predicate OrderedRight(a: Version) {
    forall b, markedA, markedB :: Straight(b) ==> OrderedAgainst(a, b, markedA, markedB)
  }

  // The text before the first hyphen is a number beyond the range of int, which the
  // parser compares as text, too.
  predicate Overlong(s: string) {
    var lead := s[..Span(s, {'-'})];
    lead != "" && AllDigits(lead) && DigitsValue(lead) > INT_MAX
  }

  function FirstHyphenated(pre: seq<Identifier>): (i: nat)
    ensures i <= |pre|
    ensures forall j :: 0 <= j < i ==> !Hyphenated(pre[j])
    ensures i < |pre| ==> Hyphenated(pre[i])
  {
    if pre == [] || Hyphenated(pre[0]) then 0 else 1 + FirstHyphenated(pre[1..])
  }

  predicate WellRead(pre: seq<Identifier>) {
    var i := FirstHyphenated(pre);
    !DescribeShaped(pre) && (i < |pre| ==> Overlong(pre[i].s))
  }

  ghost predicate ListBelow(p: seq<Identifier>, q: seq<Identifier>) {
    BelowAtFirstDifference((x, y) => IdentifierBelow(x, y), p, q)
  }
}
